/** The history of dynamic-mode snapshots: a sorted vector that must agree with a map
    from simulation time to the latest valid snapshot. */
module ModeHistory {
  import opened Prelude

  // A floating-point time as far as the history looks at it.
  datatype Time = Finite(sec: real) | NotFinite

  datatype Snapshot = Snapshot(simulationTime: Time, valid: bool, linearizationTime: Time, modes: int)

  predicate Recordable(s: Snapshot) {
    s.simulationTime.Finite? && s.valid
  }

  // A snapshot as it is stored: its analysis carries its own time.
  function Stamped(s: Snapshot): Snapshot {
    s.(linearizationTime := s.simulationTime)
  }

  predicate Sorted(s: seq<Snapshot>) {
    && (forall i :: 0 <= i < |s| ==> s[i].simulationTime.Finite?)
    && (forall i, j :: 0 <= i < j < |s| ==> s[i].simulationTime.sec < s[j].simulationTime.sec)
  }

  /** The vector holds exactly the map's entries, each under its own time. */
  ghost predicate Represents(s: seq<Snapshot>, latest: map<real, Snapshot>) {
    && Sorted(s)
    && (forall i :: 0 <= i < |s| ==> s[i].simulationTime.sec in latest && latest[s[i].simulationTime.sec] == s[i])
    && (forall t :: t in latest ==> exists i :: 0 <= i < |s| && s[i].simulationTime.sec == t)
  }

  // The number of snapshots before a time, and the number at or before it.
  function LowerBound(s: seq<Snapshot>, t: real): (n: nat)
    requires Sorted(s)
    ensures n <= |s|
  {
    if s == [] || s[0].simulationTime.sec >= t then 0 else 1 + LowerBound(s[1..], t)
  }

  function UpperBound(s: seq<Snapshot>, t: real): (n: nat)
    requires Sorted(s)
    ensures n <= |s|
  {
    if s == [] || t < s[0].simulationTime.sec then 0 else 1 + UpperBound(s[1..], t)
  }

  lemma {:induction false} LowerBoundSplits(s: seq<Snapshot>, t: real)
    requires Sorted(s)
    ensures forall i :: 0 <= i < LowerBound(s, t) ==> s[i].simulationTime.sec < t
    ensures forall i :: LowerBound(s, t) <= i < |s| ==> s[i].simulationTime.sec >= t
  {
    if s != [] && s[0].simulationTime.sec < t {
      LowerBoundSplits(s[1..], t);
      assert forall i :: 0 < i < |s| ==> s[i] == s[1..][i - 1];
    }
  }

  lemma {:induction false} UpperBoundSplits(s: seq<Snapshot>, t: real)
    requires Sorted(s)
    ensures forall i :: 0 <= i < UpperBound(s, t) ==> s[i].simulationTime.sec <= t
    ensures forall i :: UpperBound(s, t) <= i < |s| ==> s[i].simulationTime.sec > t
  {
    if s != [] && s[0].simulationTime.sec <= t {
      UpperBoundSplits(s[1..], t);
      assert forall i :: 0 < i < |s| ==> s[i] == s[1..][i - 1];
    }
  }

  /** A map has only one sorted vector. */
  lemma {:induction false} RepresentationIsUnique(a: seq<Snapshot>, b: seq<Snapshot>, latest: map<real, Snapshot>)
    requires Represents(a, latest) && Represents(b, latest)
    ensures a == b
  {
    if |a| > 0 || |b| > 0 {
      BothEmpty(a, b, latest);
      BothEmpty(b, a, latest);
      var m, n := a[|a| - 1], b[|b| - 1];
      LastIsGreatest(a, latest);
      LastIsGreatest(b, latest);
      var rest := latest - {m.simulationTime.sec};
      WithoutLast(a, latest);
      WithoutLast(b, latest);
      hide Represents;
      RepresentationIsUnique(a[..|a| - 1], b[..|b| - 1], rest);
      assert a == a[..|a| - 1] + [m];
      assert b == b[..|b| - 1] + [n];
    }
  }

  lemma LastIsGreatest(s: seq<Snapshot>, latest: map<real, Snapshot>)
    requires |s| > 0 && Represents(s, latest)
    ensures var t := s[|s| - 1].simulationTime.sec;
            t in latest && latest[t] == s[|s| - 1] && forall u :: u in latest ==> u <= t
  {
  }

  lemma BothEmpty(a: seq<Snapshot>, b: seq<Snapshot>, latest: map<real, Snapshot>)
    requires Represents(a, latest) && Represents(b, latest) && |a| > 0
    ensures |b| > 0
  {
    assert a[0].simulationTime.sec in latest;
  }

  lemma WithoutLast(s: seq<Snapshot>, latest: map<real, Snapshot>)
    requires |s| > 0 && Represents(s, latest)
    ensures Represents(s[..|s| - 1], latest - {s[|s| - 1].simulationTime.sec})
  {
  }

  class DynamicModeHistory {
    var snapshots: seq<Snapshot>
    ghost var latest: map<real, Snapshot>

    ghost predicate Valid()
      reads this
    {
      Represents(snapshots, latest)
    }

    constructor ()
      ensures Valid() && latest == map[]
    {
      snapshots, latest := [], map[];
    }

    method Push(snapshot: Snapshot)
      requires Valid()
      modifies this
      ensures Valid()
      ensures latest == if Recordable(snapshot) then old(latest)[snapshot.simulationTime.sec := Stamped(snapshot)]
                        else old(latest)
    {
      if snapshot.simulationTime.NotFinite? || !snapshot.valid {
        return;
      }
      var stamped := snapshot.(linearizationTime := snapshot.simulationTime);
      var t := snapshot.simulationTime.sec;
      var position := LowerBound(snapshots, t);
      LowerBoundSplits(snapshots, t);
      if position < |snapshots| && snapshots[position].simulationTime.sec == t {
        OverwriteRepresents(snapshots, position, latest, stamped);
        snapshots := snapshots[position := stamped];
      } else {
        InsertRepresents(snapshots, position, latest, stamped);
        snapshots := snapshots[..position] + [stamped] + snapshots[position..];
      }
      latest := latest[t := stamped];
    }

    method Clear()
      requires Valid()
      modifies this
      ensures Valid() && latest == map[]
    {
      snapshots := [];
      latest := map[];
    }

    /** The entry with the greatest time at most `time`, or none exactly when every
        entry is later. */
    method FindLatestAtOrBefore(time: Time) returns (found: Option<Snapshot>)
      requires Valid()
      ensures found.Some? <==> time.Finite? && exists t :: t in latest && t <= time.sec
      ensures found.Some? ==>
          && found.value.simulationTime.Finite?
          && var t := found.value.simulationTime.sec;
             && t in latest && latest[t] == found.value && t <= time.sec
             && forall u :: u in latest && u <= time.sec ==> u <= t
    {
      if time.NotFinite? || |snapshots| == 0 {
        return None;
      }
      UpperBoundSplits(snapshots, time.sec);
      var position := UpperBound(snapshots, time.sec);
      if position == 0 {
        return None;
      }
      assert snapshots[position - 1].simulationTime.sec in latest;
      return Some(snapshots[position - 1]);
    }
  }

  lemma OverwriteRepresents(s: seq<Snapshot>, position: nat, latest: map<real, Snapshot>, stamped: Snapshot)
    requires Represents(s, latest) && stamped.simulationTime.Finite? && position < |s|
    requires s[position].simulationTime == stamped.simulationTime
    ensures Represents(s[position := stamped], latest[stamped.simulationTime.sec := stamped])
  {
    var t, r := stamped.simulationTime.sec, s[position := stamped];
    var later := latest[t := stamped];
    forall u | u in later
      ensures exists i :: 0 <= i < |r| && r[i].simulationTime.sec == u
    {
      var i :| 0 <= i < |s| && s[i].simulationTime.sec == u;
      assert r[i].simulationTime.sec == u;
    }
  }

  function Inserted(s: seq<Snapshot>, position: nat, x: Snapshot): (r: seq<Snapshot>)
    requires position <= |s|
    ensures |r| == |s| + 1 && r[position] == x
    ensures forall i :: 0 <= i < position ==> r[i] == s[i]
    ensures forall i :: position < i < |r| ==> r[i] == s[i - 1]
  {
    s[..position] + [x] + s[position..]
  }

  lemma InsertSorted(s: seq<Snapshot>, position: nat, x: Snapshot)
    requires Sorted(s) && x.simulationTime.Finite? && position <= |s|
    requires forall i :: 0 <= i < position ==> s[i].simulationTime.sec < x.simulationTime.sec
    requires forall i :: position <= i < |s| ==> s[i].simulationTime.sec > x.simulationTime.sec
    ensures Sorted(Inserted(s, position, x))
  {
    hide Inserted;
    var r := Inserted(s, position, x);
    forall i, j | 0 <= i < j < |r|
      ensures r[i].simulationTime.sec < r[j].simulationTime.sec
    {
      var k := if j <= position then j else j - 1;
      if i == position {
        assert r[j] == s[k];
      } else if j == position {
        assert r[i] == s[i];
      } else {
        assert r[i] == s[if i < position then i else i - 1] && r[j] == s[k];
      }
    }
  }

  lemma InsertRepresents(s: seq<Snapshot>, position: nat, latest: map<real, Snapshot>, stamped: Snapshot)
    requires Represents(s, latest) && stamped.simulationTime.Finite? && position <= |s|
    requires forall i :: 0 <= i < position ==> s[i].simulationTime.sec < stamped.simulationTime.sec
    requires forall i :: position <= i < |s| ==> s[i].simulationTime.sec > stamped.simulationTime.sec
    ensures Represents(s[..position] + [stamped] + s[position..], latest[stamped.simulationTime.sec := stamped])
  {
    var t, r := stamped.simulationTime.sec, Inserted(s, position, stamped);
    assert r == s[..position] + [stamped] + s[position..];
    InsertSorted(s, position, stamped);
    hide Inserted, Sorted;
    var later := latest[t := stamped];
    forall u | u in later
      ensures exists i :: 0 <= i < |r| && r[i].simulationTime.sec == u
    {
      if u == t {
        assert r[position].simulationTime.sec == u;
      } else {
        var i :| 0 <= i < |s| && s[i].simulationTime.sec == u;
        assert r[if i < position then i else i + 1] == s[i];
      }
    }
    forall i | 0 <= i < |r|
      ensures r[i].simulationTime.sec in later && later[r[i].simulationTime.sec] == r[i]
    {
      assert i == position || r[i] == s[if i < position then i else i - 1];
    }
  }
}
