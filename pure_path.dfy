/** The `pathlib.PurePosixPath` operations the pipelines and spiders use:
    the final component (`name`), its `suffix`, `stem` and `with_suffix`.
    Paths are taken as written (see README for the normalisation left out). */
module PurePath {
  import opened Wrappers
  import opened Strings

  /** Index just past the last "/", or 0 when there is none. */
  function NameStart(p: string): (k: nat)
    ensures k <= |p|
    ensures forall j :: k <= j < |p| ==> p[j] != '/'
    ensures k > 0 ==> p[k - 1] == '/'
  {
    match LastIndexOf(p, '/')
    case None => 0
    case Some(i) => i + 1
  }

  /** The final path component. */
  function Name(p: string): string
  {
    p[NameStart(p)..]
  }

  /** Where the suffix of a final component starts, following pathlib: the last
      "." counts only when it is neither the first nor the last character. */
  function SuffixStart(name: string): Option<nat>
  {
    match LastIndexOf(name, '.')
    case None => None
    case Some(i) => if 0 < i < |name| - 1 then Some(i) else None
  }

  function Suffix(p: string): string
  {
    var name := Name(p);
    match SuffixStart(name)
    case None => ""
    case Some(i) => name[i..]
  }

  /** `Path(p).stem`: the final component without its suffix. */
  function Stem(p: string): (r: string)
    ensures r <= Name(p)
    ensures forall j :: 0 <= j < |r| ==> r[j] != '/'
  {
    var name := Name(p);
    match SuffixStart(name)
    case None => name
    case Some(i) => name[..i]
  }

  /** `str(Path(p).with_suffix(ext))`: the directory part kept, the final
      suffix replaced by `ext` (or removed when `ext` is empty). */
  function WithSuffix(p: string, ext: string): string
  {
    p[..NameStart(p)] + Stem(p) + ext
  }

  /** The final component is its stem followed by its suffix. */
  lemma StemAndSuffix(p: string)
    ensures Stem(p) + Suffix(p) == Name(p)
  {
  }

  /** A suffix `with_suffix` accepts: "." followed by at least one
      character that is neither "." nor "/" (the empty suffix, which removes
      the old one, is not needed here). */
  predicate ValidSuffix(ext: string)
  {
    |ext| >= 2 && ext[0] == '.' && forall j :: 1 <= j < |ext| ==> ext[j] != '.' && ext[j] != '/'
  }

  /** Replacing the suffix keeps the directory and the stem and gives the new
      suffix. */
  lemma WithSuffixParts(p: string, ext: string)
    requires Name(p) != [] && ValidSuffix(ext)
    ensures var q := WithSuffix(p, ext);
      q[..NameStart(q)] == p[..NameStart(p)] && Name(q) == Stem(p) + ext
      && Suffix(q) == ext && Stem(q) == Stem(p)
  {
    var stem := Stem(p);
    assert stem != [] by {
      if SuffixStart(Name(p)).None? {
        assert stem == Name(p);
      }
    }
    WithSuffixName(p, ext);
    SuffixOfStemAndExt(stem, ext);
  }

  lemma WithSuffixName(p: string, ext: string)
    requires ValidSuffix(ext)
    ensures var q := WithSuffix(p, ext);
      NameStart(q) == NameStart(p) && q[..NameStart(q)] == p[..NameStart(p)] && Name(q) == Stem(p) + ext
  {
    var dir, stem := p[..NameStart(p)], Stem(p);
    var q := WithSuffix(p, ext);
    assert q == dir + (stem + ext);
    forall j | |dir| <= j < |q| ensures q[j] != '/' {
      if j < |dir| + |stem| {
        assert q[j] == stem[j - |dir|];
      } else {
        assert q[j] == ext[j - |dir| - |stem|];
      }
    }
    LastAt(q, '/', |dir|);
  }

  lemma SuffixOfStemAndExt(stem: string, ext: string)
    requires stem != [] && ValidSuffix(ext)
    ensures SuffixStart(stem + ext) == Some(|stem|)
  {
    var n := stem + ext;
    forall j | |stem| < j < |n| ensures n[j] != '.' {
      assert n[j] == ext[j - |stem|];
    }
    assert n[|stem|] == '.';
    LastAt(n, '.', |stem| + 1);
  }
}
