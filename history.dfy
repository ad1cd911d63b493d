/**
 * The client's processed-input history (ExpiringDataContainer), as its call
 * sites use it: the entries in insertion order, `get_data_exceeding(t)` is
 * the entries inserted after time `t` in order, and `get_most_recent()` the
 * last entry. The container's own source is not part of this model.
 */
module InputHistory {
  import opened Snapshots
  import opened Wrappers

  /** Insertion times never decrease along the history. */
  ghost predicate TimeOrdered(h: seq<InputSnapshot>) {
    forall i, j :: 0 <= i < j < |h| ==> h[i].insertionTime <= h[j].insertionTime
  }

  /** get_data_exceeding: the entries whose insertion time is greater than `t`, in history order. */
  function DataExceeding(h: seq<InputSnapshot>, t: U64): (r: seq<InputSnapshot>)
    ensures |r| <= |h|
    ensures forall i :: 0 <= i < |r| ==> r[i].insertionTime > t
    decreases |h|
  {
    if h == [] then []
    else
      var init := h[..|h| - 1];
      var last := h[|h| - 1];
      DataExceeding(init, t) + (if last.insertionTime > t then [last] else [])
  }

  /** Exactly the entries of the history newer than `t` are returned. */
  lemma {:induction false} DataExceedingMembers(h: seq<InputSnapshot>, t: U64, s: InputSnapshot)
    ensures s in DataExceeding(h, t) <==> s in h && s.insertionTime > t
    decreases |h|
  {
    if h != [] {
      var init := h[..|h| - 1];
      assert h == init + [h[|h| - 1]];
      DataExceedingMembers(init, t, s);
    }
  }

  /** The entries the server has already processed: insertion time at most `t`. */
  function Acknowledged(h: seq<InputSnapshot>, t: U64): (r: seq<InputSnapshot>)
    ensures |r| <= |h|
    ensures forall i :: 0 <= i < |r| ==> r[i].insertionTime <= t
    decreases |h|
  {
    if h == [] then []
    else
      var init := h[..|h| - 1];
      var last := h[|h| - 1];
      Acknowledged(init, t) + (if last.insertionTime <= t then [last] else [])
  }

  /** get_most_recent: the last entry, if any. */
  function MostRecent(h: seq<InputSnapshot>): (r: Option<InputSnapshot>)
    ensures r.None? <==> h == []
    ensures r.Some? ==> r.value == h[|h| - 1]
  {
    if h == [] then None else Some(h[|h| - 1])
  }

  /** When every entry is at most `t`, nothing exceeds `t` and everything is acknowledged. */
  lemma {:induction false} AllAcknowledged(h: seq<InputSnapshot>, t: U64)
    requires forall i :: 0 <= i < |h| ==> h[i].insertionTime <= t
    ensures DataExceeding(h, t) == [] && Acknowledged(h, t) == h
    decreases |h|
  {
    if h != [] {
      var init := h[..|h| - 1];
      AllAcknowledged(init, t);
      assert DataExceeding(h, t) == DataExceeding(init, t);
      assert Acknowledged(h, t) == init + [h[|h| - 1]];
      assert init + [h[|h| - 1]] == h;
    }
  }

  /** In a time-ordered history the watermark splits it into acknowledged entries followed by pending ones. */
  lemma {:induction false} SplitAtWatermark(h: seq<InputSnapshot>, t: U64)
    requires TimeOrdered(h)
    ensures Acknowledged(h, t) + DataExceeding(h, t) == h
    decreases |h|
  {
    if h != [] {
      var init := h[..|h| - 1];
      var last := h[|h| - 1];
      assert h == init + [last];
      if last.insertionTime > t {
        assert TimeOrdered(init) by {
          forall i, j | 0 <= i < j < |init|
            ensures init[i].insertionTime <= init[j].insertionTime
          {
            assert init[i] == h[i] && init[j] == h[j];
          }
        }
        SplitAtWatermark(init, t);
        assert Acknowledged(h, t) == Acknowledged(init, t);
        assert DataExceeding(h, t) == DataExceeding(init, t) + [last];
      } else {
        forall i | 0 <= i < |init|
          ensures init[i].insertionTime <= t
        {
          assert init[i] == h[i];
        }
        AllAcknowledged(init, t);
        assert Acknowledged(h, t) == init + [last];
        assert DataExceeding(h, t) == [];
      }
    }
  }

  /** In a time-ordered history, the replay set is what follows the acknowledged prefix. */
  lemma ReplayIsUnacknowledgedSuffix(h: seq<InputSnapshot>, t: U64)
    ensures TimeOrdered(h) ==> h[|Acknowledged(h, t)|..] == DataExceeding(h, t)
  {
    if TimeOrdered(h) {
      SplitAtWatermark(h, t);
      assert h[|Acknowledged(h, t)|..] == (Acknowledged(h, t) + DataExceeding(h, t))[|Acknowledged(h, t)|..];
    }
  }

  /**
   * The ideal replay: started from the look state after exactly the
   * acknowledged entries, replaying the pending ones reproduces the look
   * state after the whole history. The client does not set up this
   * baseline; its replay starts from the angles stored in its render map and
   * the live mouse state (see Client.Reconciled).
   */
  lemma ReplayReproducesPrediction(c: Controls, look0: Look, h: seq<InputSnapshot>, t: U64)
    requires TimeOrdered(h)
    ensures LookAfter(c, LookAfter(c, look0, Acknowledged(h, t)), DataExceeding(h, t)) == LookAfter(c, look0, h)
  {
    SplitAtWatermark(h, t);
    LookAfterAppend(c, look0, Acknowledged(h, t), DataExceeding(h, t));
  }

  /** A history stamped at 100, 150 and 200 with watermark 150 replays only the entry stamped 200. */
  lemma ExceedingExample(a: InputSnapshot, b: InputSnapshot, c: InputSnapshot)
    requires a.insertionTime == 100 && b.insertionTime == 150 && c.insertionTime == 200
    ensures DataExceeding([a, b, c], 150) == [c]
    ensures Acknowledged([a, b, c], 150) == [a, b]
  {
    assert [a, b, c][..2] == [a, b];
    assert [a, b][..1] == [a];
    assert [a][..0] == [];
    assert DataExceeding([a], 150) == [];
    assert DataExceeding([a, b], 150) == [];
    assert Acknowledged([a], 150) == [a];
    assert Acknowledged([a, b], 150) == [a, b];
  }
}
