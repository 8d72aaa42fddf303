/** Locating the statistics block scrapy dumps at the end of a job log:
    the text after "Dumping Scrapy stats:\n", from its "{" to a closing "}".
    The two readers differ only in the closing brace they pick: the parser's
    pattern `\{.+?}` stops at the first "}" that leaves at least one character
    between the braces, the viewer's `\{.+\}` at the last "}" of the text.
    Both, as `re.search`, take the leftmost place where the marker starts a
    match. */
module StatsBlock {
  import opened Wrappers
  import opened Strings

  /** The marker line together with the opening brace of the block. */
  const Marker: string := "Dumping Scrapy stats:\n{"

  /** Index of the captured group within a match starting at `i`: the "{". */
  function GroupStart(i: nat): nat { i + |Marker| - 1 }

  /** A match of either pattern starts at `i` and ends with the "}" at `j`:
      the marker (and "{") at `i`, at least one character, then "}". */
  predicate CloseAt(t: string, i: nat, j: nat)
  {
    OccursAt(t, Marker, i) && i + |Marker| < j < |t| && t[j] == '}'
  }

  /** No match of the block patterns starts before `i`. */
  ghost predicate NoEarlierMatch(t: string, i: nat)
  {
    forall k: nat, j: nat :: k < i ==> !CloseAt(t, k, j)
  }

  /** The match `re.search` reports for the lazy pattern. */
  ghost predicate LazyMatch(t: string, i: nat, j: nat)
  {
    CloseAt(t, i, j) && NoEarlierMatch(t, i)
    && forall k :: i + |Marker| < k < j ==> t[k] != '}'
  }

  /** The match `re.search` reports for the greedy pattern. */
  ghost predicate GreedyMatch(t: string, i: nat, j: nat)
  {
    CloseAt(t, i, j) && NoEarlierMatch(t, i)
    && forall k :: j < k < |t| ==> t[k] != '}'
  }

  /** First occurrence of the marker at or after `from`. */
  function FindMarker(t: string, from: nat): (r: Option<nat>)
    requires from <= |t|
    ensures r.Some? ==> from <= r.value && OccursAt(t, Marker, r.value)
    ensures forall k: nat :: from <= k && (r.None? || k < r.value) ==> !OccursAt(t, Marker, k)
    decreases |t| - from
  {
    if from + |Marker| > |t| then None
    else if t[from..from + |Marker|] == Marker then Some(from)
    else FindMarker(t, from + 1)
  }

  /** First "}" at or after `from`. */
  function FirstClose(t: string, from: nat): (r: Option<nat>)
    ensures r.Some? ==> from <= r.value < |t| && t[r.value] == '}'
    ensures forall k :: from <= k < |t| && (r.None? || k < r.value) ==> t[k] != '}'
    decreases |t| - from
  {
    if from >= |t| then None
    else if t[from] == '}' then Some(from)
    else FirstClose(t, from + 1)
  }

  /** Last "}" at or after `from`. */
  function LastClose(t: string, from: nat): (r: Option<nat>)
    ensures r.Some? ==> from <= r.value < |t| && t[r.value] == '}'
    ensures forall k :: from <= k < |t| && (r.None? || r.value < k) ==> t[k] != '}'
  {
    match LastIndexOf(t, '}')
    case Some(j) => if from <= j then Some(j) else None
    case None => None
  }

  /** A marker occurrence that starts no match means no later one does:
      every candidate "}" for the later one would also close the earlier. */
  lemma NoMatchAfterFailedMarker(t: string, i: nat)
    requires OccursAt(t, Marker, i) && FindMarker(t, 0) == Some(i)
    requires FirstClose(t, i + |Marker| + 1).None?
    ensures forall k: nat, j: nat :: !CloseAt(t, k, j)
  {
    // No match starts before the first marker, and every "}" that could close
    // a match starting at or after it lies in the range FirstClose searched.
    forall k: nat | k < i ensures !OccursAt(t, Marker, k) {
    }
    forall j | i + |Marker| < j < |t| ensures t[j] != '}' {
    }
  }

  /** `stats.group(1)` of the parser's lazy search, or None without a match. */
  function LazyBlock(t: string): (r: Option<string>)
    ensures r.Some? <==> exists i: nat, j: nat :: CloseAt(t, i, j)
    ensures r.Some? ==> exists i: nat, j: nat :: LazyMatch(t, i, j) && r.value == t[GroupStart(i)..j + 1]
  {
    match FindMarker(t, 0)
    case None => None
    case Some(i) =>
      match FirstClose(t, i + |Marker| + 1)
      case None =>
        NoMatchAfterFailedMarker(t, i);
        None
      case Some(j) =>
        assert CloseAt(t, i, j);
        assert LazyMatch(t, i, j);
        Some(t[GroupStart(i)..j + 1])
  }

  /** `stats.group(1)` of the viewer's greedy search, or None without a match. */
  function GreedyBlock(t: string): (r: Option<string>)
    ensures r.Some? <==> exists i: nat, j: nat :: CloseAt(t, i, j)
    ensures r.Some? ==> exists i: nat, j: nat :: GreedyMatch(t, i, j) && r.value == t[GroupStart(i)..j + 1]
  {
    match FindMarker(t, 0)
    case None => None
    case Some(i) =>
      match LastClose(t, i + |Marker| + 1)
      case None =>
        assert FirstClose(t, i + |Marker| + 1).None?;
        NoMatchAfterFailedMarker(t, i);
        None
      case Some(j) =>
        assert CloseAt(t, i, j);
        assert GreedyMatch(t, i, j);
        Some(t[GroupStart(i)..j + 1])
  }

  /** Both searches find a block in the same texts, and the lazy block is never
      longer than the greedy one, which extends it. */
  lemma LazyIsPrefixOfGreedy(t: string)
    ensures LazyBlock(t).Some? <==> GreedyBlock(t).Some?
    ensures LazyBlock(t).Some? ==> LazyBlock(t).value <= GreedyBlock(t).value
  {
    match FindMarker(t, 0)
    case None =>
    case Some(i) =>
      match FirstClose(t, i + |Marker| + 1)
      case None =>
      case Some(j) =>
        var j' := LastClose(t, i + |Marker| + 1).value;
        assert t[GroupStart(i)..j + 1] <= t[GroupStart(i)..j' + 1];
  }
}
