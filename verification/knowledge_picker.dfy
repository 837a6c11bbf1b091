/** The knowledge-base picker (SelectAtActionKnowledge.tsx): the bases it offers, and its
    keyboard handling with a clamped, non-wrapping cursor. */
module KnowledgePicker {

  import opened Wrappers
  import opened Keys
  import opened Seqs

  datatype KnowledgeBase = KnowledgeBase(id: string, name: string)

  /** Some already-selected base has the same id as `b`. */
  predicate IsSelected(selected: seq<KnowledgeBase>, b: KnowledgeBase)
  {
    exists k :: 0 <= k < |selected| && selected[k].id == b.id
  }

  /** The filter used while search text is present: not selected, and the lowered name
      contains the lowered text. */
  function UnselectedMatching(selected: seq<KnowledgeBase>, search: string, lower: string -> string): KnowledgeBase -> bool
  {
    b => !IsSelected(selected, b) && Includes(lower(b.name), lower(search))
  }

  /** The filter used while the search text is empty: not selected. */
  function Unselected(selected: seq<KnowledgeBase>): KnowledgeBase -> bool
  {
    b => !IsSelected(selected, b)
  }

  /** `filteredBases`, recomputed from the store's bases, the already-selected bases and the
      search text; `lower` stands for `toLowerCase`. */
  function FilterBases(bases: seq<KnowledgeBase>, selected: seq<KnowledgeBase>, search: string, lower: string -> string): (r: seq<KnowledgeBase>)
    ensures forall i :: 0 <= i < |r| ==> !IsSelected(selected, r[i])
    ensures forall b :: b in r <==>
      && b in bases
      && !IsSelected(selected, b)
      && (search != "" ==> Includes(lower(b.name), lower(search)))
    ensures IsSubsequence(r, bases)
    ensures forall b :: multiset(r)[b] ==
                        (if !IsSelected(selected, b) && (search != "" ==> Includes(lower(b.name), lower(search)))
                         then multiset(bases)[b] else 0)
  {
    var keep := if search != "" then UnselectedMatching(selected, search, lower) else Unselected(selected);
    var r := Filter(keep, bases);
    FilterIsSubsequence(keep, bases);
    forall b
      ensures multiset(r)[b] == if keep(b) then multiset(bases)[b] else 0
    {
      FilterCount(keep, bases, b);
    }
    assert forall b :: b in bases && keep(b) ==> b in r by {
      forall b | b in bases && keep(b)
        ensures b in r
      {
        var i :| 0 <= i < |bases| && bases[i] == b;
      }
    }
    r
  }

  /** Filtering the filtered list again with the same inputs changes nothing. */
  lemma FilterBasesIdempotent(bases: seq<KnowledgeBase>, selected: seq<KnowledgeBase>, search: string, lower: string -> string)
    ensures FilterBases(FilterBases(bases, selected, search, lower), selected, search, lower)
         == FilterBases(bases, selected, search, lower)
  {
    if search != "" {
      FilterIdempotent(UnselectedMatching(selected, search, lower), bases);
    } else {
      FilterIdempotent(Unselected(selected), bases);
    }
  }

  // ---------------------------------------------------------------- keyboard

  /** The cursor (`selectedIndex`) starts on the first row. */
  const InitialCursor: int := 0

  /** What one key press does: the next cursor, the bases handed to the select callback
      (Enter), and whether `onClose` was called (Escape). */
  datatype KeyOutcome = KeyOutcome(cursor: int, chosen: Option<seq<KnowledgeBase>>, closed: bool)

  /** Moves by `direction` only when the target row exists; otherwise stays put. */
  function Step(cursor: int, direction: int, count: int): (r: int)
    ensures 0 <= cursor + direction < count ==> r == cursor + direction
    ensures !(0 <= cursor + direction < count) ==> r == cursor
  {
    var target := cursor + direction;
    if 0 <= target < count then target else cursor
  }

  /** The window keydown listener, over the current `filteredBases`. */
  function OnKey(cursor: int, filtered: seq<KnowledgeBase>, key: Key): (r: KeyOutcome)
    ensures r.cursor == cursor || ((key == ArrowDown || key == ArrowUp) && 0 <= r.cursor < |filtered|)
    ensures key == ArrowDown && cursor + 1 < |filtered| && 0 <= cursor + 1 ==> r.cursor == cursor + 1
    ensures key == ArrowUp && 0 < cursor <= |filtered| ==> r.cursor == cursor - 1
    ensures 0 <= cursor < |filtered| ==> 0 <= r.cursor < |filtered|
    ensures r.chosen.Some? <==> key == Enter && 0 <= cursor < |filtered|
    ensures r.chosen.Some? ==> r.chosen.value == [filtered[cursor]]
    ensures r.closed <==> key == Escape
    ensures key == ArrowDown ==> r.cursor == Step(cursor, 1, |filtered|)
    ensures key == ArrowUp ==> r.cursor == Step(cursor, -1, |filtered|)
    ensures key != ArrowDown && key != ArrowUp ==> r.cursor == cursor
  {
    match key
    case ArrowDown => KeyOutcome(Step(cursor, 1, |filtered|), None, false)
    case ArrowUp => KeyOutcome(Step(cursor, -1, |filtered|), None, false)
    case Enter =>
      if 0 <= cursor < |filtered| then KeyOutcome(cursor, Some([filtered[cursor]]), false)
      else KeyOutcome(cursor, None, false)
    case Escape => KeyOutcome(cursor, None, true)
    case OtherKey => KeyOutcome(cursor, None, false)
  }

  /** `k` presses of ArrowDown from `cursor` over `filtered`. */
  function DownPresses(cursor: int, filtered: seq<KnowledgeBase>, k: nat): int
    decreases k
  {
    if k == 0 then cursor else DownPresses(OnKey(cursor, filtered, ArrowDown).cursor, filtered, k - 1)
  }

  /** ArrowDown saturates at the last row instead of wrapping. */
  lemma {:induction false} DownPressesSaturate(cursor: int, filtered: seq<KnowledgeBase>, k: nat)
    requires 0 <= cursor < |filtered|
    ensures DownPresses(cursor, filtered, k) == if cursor + k < |filtered| then cursor + k else |filtered| - 1
    decreases k
  {
    if k > 0 {
      DownPressesSaturate(OnKey(cursor, filtered, ArrowDown).cursor, filtered, k - 1);
    }
  }

  /** A sequence of key presses over a fixed list: the final cursor, every selection handed to
      the callback, and how many times `onClose` was called. */
  datatype Session = Session(cursor: int, chosen: seq<KnowledgeBase>, closes: nat)

  function RunKeys(cursor: int, filtered: seq<KnowledgeBase>, keys: seq<Key>): Session
    decreases |keys|
  {
    if |keys| == 0 then Session(cursor, [], 0)
    else
      var step := OnKey(cursor, filtered, keys[0]);
      var rest := RunKeys(step.cursor, filtered, keys[1..]);
      Session(rest.cursor,
              (if step.chosen.Some? then step.chosen.value else []) + rest.chosen,
              (if step.closed then 1 else 0) + rest.closes)
  }

  /** From a valid row, no key sequence moves the cursor off the list; every chosen base is a
      listed one, and `onClose` runs once per Escape. */
  lemma {:induction false} SessionStaysInRange(cursor: int, filtered: seq<KnowledgeBase>, keys: seq<Key>)
    requires 0 <= cursor < |filtered|
    ensures var r := RunKeys(cursor, filtered, keys);
      && 0 <= r.cursor < |filtered|
      && (forall b :: b in r.chosen ==> b in filtered)
      && r.closes == multiset(keys)[Escape]
    decreases |keys|
  {
    if |keys| > 0 {
      SessionStaysInRange(OnKey(cursor, filtered, keys[0]).cursor, filtered, keys[1..]);
      assert keys == [keys[0]] + keys[1..];
    }
  }

  /** Mounting puts the cursor on the first row, so over a non-empty list every session from
      mount keeps it on the list and selects only listed bases. */
  lemma SessionFromMount(filtered: seq<KnowledgeBase>, keys: seq<Key>)
    requires 0 < |filtered|
    ensures var r := RunKeys(InitialCursor, filtered, keys);
      && 0 <= r.cursor < |filtered|
      && (forall b :: b in r.chosen ==> b in filtered)
  {
    SessionStaysInRange(InitialCursor, filtered, keys);
  }

  /** The cursor is not reset when the list shrinks. One left two or more rows past the new
      end is stuck: neither arrow has a row to move to, and Enter never selects. */
  lemma {:induction false} StaleCursorStuck(cursor: int, filtered: seq<KnowledgeBase>, keys: seq<Key>)
    requires cursor >= |filtered| + 1
    ensures RunKeys(cursor, filtered, keys).cursor == cursor
    ensures RunKeys(cursor, filtered, keys).chosen == []
    decreases |keys|
  {
    if |keys| > 0 {
      StaleCursorStuck(cursor, filtered, keys[1..]);
    }
  }
}
