/**
 * The linear, bounded undo/redo history that both editors keep
 * (`saveHistory`, `undo`, `redo` in src/App.jsx and src/not.jsx).
 * The history is a sequence of snapshots and the index of the current one;
 * saving discards everything after the index (there is no branching), appends
 * the snapshot and evicts the oldest entry once more than 50 are held.
 */
module History {
  import opened Wrappers

  /** Largest number of entries the history retains. */
  const MaxEntries: nat := 50

  /** The last `min(n, |s|)` elements of `s`. */
  function Last<T>(s: seq<T>, n: nat): (r: seq<T>)
    ensures |r| == if |s| < n then |s| else n
    ensures forall i :: 0 <= i < |r| ==> r[i] == s[|s| - |r| + i]
  {
    if |s| <= n then s else s[|s| - n..]
  }

  /** Taking the tail of a suffix that is still long enough is taking the tail of the whole. */
  lemma LastOfSuffix<T>(t: seq<T>, i: nat, n: nat)
    requires i <= |t| && n <= |t| - i
    ensures Last(t[i..], n) == Last(t, n)
  {
    assert t[i..][|t| - i - n..] == t[|t| - n..];
  }

  /** Trimming before appending more, then trimming again, is one trim of the whole. */
  lemma LastOfLast<T>(a: seq<T>, b: seq<T>, n: nat)
    ensures Last(Last(a, n) + b, n) == Last(a + b, n)
  {
    if |a| > n {
      var i := |a| - n;
      assert Last(a, n) == a[i..];
      assert a[i..] + b == (a + b)[i..];
      LastOfSuffix(a + b, i, n);
    } else {
      assert Last(a, n) == a;
    }
  }

  datatype History<S> = History(entries: seq<S>, index: int) {

    /** The history's invariant: at most 50 entries, and the index is -1 exactly when it is empty. */
    predicate Valid() {
      && |entries| <= MaxEntries
      && -1 <= index < |entries|
      && (index == -1 <==> entries == [])
    }

    /** `historyIndex > 0`: the guard of `undo`. */
    predicate CanUndo() {
      index > 0
    }

    /** `historyIndex < history.length - 1`: the guard of `redo`. */
    predicate CanRedo() {
      index < |entries| - 1
    }

    /**
     * `saveHistory`: keep the entries up to the index, append `s`, drop the
     * first entry when that makes more than 50, and make the new last entry current.
     * The result is the newest 50 entries of the kept ones followed by `s`.
     */
    function Save(s: S): (h: History<S>)
      requires Valid()
      ensures h.Valid()
      ensures h.entries == Last(entries[..index + 1] + [s], MaxEntries)
      ensures h.index == |h.entries| - 1 && h.entries[h.index] == s
      ensures h.entries[..h.index + 1] == h.entries
      ensures !h.CanRedo()
    {
      var kept := entries[..index + 1] + [s];
      var trimmed := if |kept| > MaxEntries then kept[1..] else kept;
      History(trimmed, |trimmed| - 1)
    }

    /** `undo`: at index 0 (or in an empty history) nothing happens; otherwise the previous entry is restored. */
    function Undo(): (r: (History<S>, Option<S>))
      requires Valid()
      ensures r.0.Valid() && r.0.entries == entries
      ensures CanUndo() ==> r.0.index == index - 1 && r.1 == Some(entries[index - 1])
      ensures !CanUndo() ==> r.0 == this && r.1 == None
    {
      if index > 0 then (History(entries, index - 1), Some(entries[index - 1]))
      else (this, None)
    }

    /** `redo`: at the last entry nothing happens; otherwise the next entry is restored. */
    function Redo(): (r: (History<S>, Option<S>))
      requires Valid()
      ensures r.0.Valid() && r.0.entries == entries
      ensures CanRedo() ==> r.0.index == index + 1 && r.1 == Some(entries[index + 1])
      ensures !CanRedo() ==> r.0 == this && r.1 == None
    {
      if index < |entries| - 1 then (History(entries, index + 1), Some(entries[index + 1]))
      else (this, None)
    }
  }

  /** The empty history every editor starts with (`history = []`, `historyIndex = -1`). */
  function Empty<S>(): (h: History<S>)
    ensures h.Valid() && h.entries == [] && !h.CanUndo() && !h.CanRedo()
  {
    History([], -1)
  }

  /** A history holding exactly one entry, current: what importing an image installs. */
  function Initial<S>(s: S): (h: History<S>)
    ensures h.Valid() && h.entries == [s] && h.index == 0
    ensures !h.CanUndo() && !h.CanRedo()
  {
    History([s], 0)
  }

  /** Saving the snapshots `ss` one after another. */
  function SaveAll<S>(h: History<S>, ss: seq<S>): (r: History<S>)
    requires h.Valid()
    ensures r.Valid()
    decreases |ss|
  {
    if ss == [] then h else SaveAll(h, ss[..|ss| - 1]).Save(ss[|ss| - 1])
  }

  /**
   * After any non-empty run of saves the history holds the newest 50 of the
   * entries kept at the start followed by the saved snapshots, and the index
   * is at the last one: eviction is first in, first out.
   */
  lemma {:induction false} SaveAllKeepsNewest<S>(h: History<S>, ss: seq<S>)
    requires h.Valid() && ss != []
    ensures SaveAll(h, ss).entries == Last(h.entries[..h.index + 1] + ss, MaxEntries)
    ensures SaveAll(h, ss).index == |SaveAll(h, ss).entries| - 1
    decreases |ss|
  {
    var kept := h.entries[..h.index + 1];
    var init, x := ss[..|ss| - 1], ss[|ss| - 1];
    if init == [] {
      assert ss == [x];
    } else {
      SaveAllKeepsNewest(h, init);
      LastOfLast(kept + init, [x], MaxEntries);
      AppendInitLast(kept, ss);
    }
  }

  lemma AppendInitLast<S>(a: seq<S>, ss: seq<S>)
    requires ss != []
    ensures a + ss[..|ss| - 1] + [ss[|ss| - 1]] == a + ss
  {
    assert ss[..|ss| - 1] + [ss[|ss| - 1]] == ss;
  }

  /** More than 50 saves into an empty history leave exactly the newest 50 snapshots. */
  lemma HistoryBound<S>(ss: seq<S>)
    requires |ss| > MaxEntries
    ensures |SaveAll(Empty<S>(), ss).entries| == MaxEntries
    ensures SaveAll(Empty<S>(), ss).entries == ss[|ss| - MaxEntries..]
  {
    SaveAllKeepsNewest(Empty<S>(), ss);
    assert Empty<S>().entries[..0] + ss == ss;
  }

  /** Undo followed by redo returns to the same history and restores the entry that was current. */
  lemma UndoThenRedo<S>(h: History<S>)
    requires h.Valid() && h.CanUndo()
    ensures h.Undo().0.Redo() == (h, Some(h.entries[h.index]))
  {
  }

  /** Redo followed by undo returns to the same history and restores the entry that was current. */
  lemma RedoThenUndo<S>(h: History<S>)
    requires h.Valid() && h.CanRedo()
    ensures h.Redo().0.Undo() == (h, Some(h.entries[h.index]))
  {
  }

  /** Save `s1`, save `s2`: undo restores `s1`, and redo after it restores `s2`. */
  lemma {:induction false} SaveSaveUndoRedo<S>(h: History<S>, s1: S, s2: S)
    requires h.Valid()
    ensures var h2 := h.Save(s1).Save(s2);
      && h2.Undo().1 == Some(s1)
      && h2.Undo().0.Redo() == (h2, Some(s2))
  {
    var h1 := h.Save(s1);
    var h2 := h1.Save(s2);
    var t := h1.entries + [s2];
    assert |h2.entries| >= 2;
    assert h2.entries[h2.index - 1] == t[|t| - 2] == s1;
  }
}
