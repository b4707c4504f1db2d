/** The window stack of the floating-window manager: an ordered list of live
    windows, each with an id and a stacking order z, driven by a reducer over
    four actions, and a manager object that draws fresh ids from a counter. */
module WindowManager {

  /** One live window; the rendered element is an opaque payload `E`. */
  datatype WindowRecord<E> = WindowRecord(id: int, element: E, z: int)

  /** The reducer state: live windows in insertion order, and the z watermark. */
  datatype State<E> = State(windows: seq<WindowRecord<E>>, nextZ: int)

  /** The four reducer actions. */
  datatype Action<E> =
    | Open(id: int, element: E)
    | Focus(id: int)
    | Close(id: int)
    | CloseAll

  /** The state the provider mounts with. */
  const InitialZ: int := 1000

  function Initial<E>(): (s: State<E>)
    ensures s.windows == [] && s.nextZ == InitialZ
  {
    State([], InitialZ)
  }

  /* ---------------------------------------------------------------------- */
  /* Sequence helpers: the `map` of FOCUS and the `filter` of CLOSE          */
  /* ---------------------------------------------------------------------- */

  /** `a` is obtained from `b` by deleting elements, keeping the order of the rest. */
  ghost predicate IsSubsequence<T>(a: seq<T>, b: seq<T>)
    decreases |b|
  {
    if |a| == 0 then true
    else if |b| == 0 then false
    else (a[0] == b[0] && IsSubsequence(a[1..], b[1..])) || IsSubsequence(a, b[1..])
  }

  /** Gives z to every record whose id is `id`; every other record is kept as it is. */
  function Raise<E>(ws: seq<WindowRecord<E>>, id: int, z: int): (r: seq<WindowRecord<E>>)
    ensures |r| == |ws|
    ensures forall i :: 0 <= i < |ws| ==>
              r[i].id == ws[i].id && r[i].element == ws[i].element
    ensures forall i :: 0 <= i < |ws| ==>
              r[i].z == (if ws[i].id == id then z else ws[i].z)
  {
    if ws == [] then []
    else
      var w := ws[0];
      [if w.id == id then w.(z := z) else w] + Raise(ws[1..], id, z)
  }

  /** The number of records that carry `id`. */
  ghost function CountId<E>(ws: seq<WindowRecord<E>>, id: int): nat
  {
    if ws == [] then 0
    else (if ws[0].id == id then 1 else 0) + CountId(ws[1..], id)
  }

  /** Drops every record whose id is `id`, keeping the others in their order. */
  function Without<E>(ws: seq<WindowRecord<E>>, id: int): (r: seq<WindowRecord<E>>)
    ensures forall i :: 0 <= i < |r| ==> r[i] in ws && r[i].id != id
    ensures forall i :: 0 <= i < |ws| && ws[i].id != id ==> ws[i] in r
    ensures IsSubsequence(r, ws)
    ensures |r| + CountId(ws, id) == |ws|
  {
    if ws == [] then []
    else if ws[0].id == id then Without(ws[1..], id)
    else [ws[0]] + Without(ws[1..], id)
  }

  /* ---------------------------------------------------------------------- */
  /* The reducer                                                            */
  /* ---------------------------------------------------------------------- */

  /** The total transition function of the window stack. */
  function Reduce<E>(s: State<E>, a: Action<E>): (r: State<E>)
    ensures r.nextZ == (if a.Open? || a.Focus? then s.nextZ + 1 else s.nextZ)
  {
    match a
    case Open(id, element) =>
      var topZ := s.nextZ + 1;
      State(s.windows + [WindowRecord(id, element, topZ)], topZ)
    case Focus(id) =>
      var topZ := s.nextZ + 1;
      State(Raise(s.windows, id, topZ), topZ)
    case Close(id) =>
      s.(windows := Without(s.windows, id))
    case CloseAll =>
      s.(windows := [])
  }

  /* ---------------------------------------------------------------------- */
  /* Invariants of a reachable state                                        */
  /* ---------------------------------------------------------------------- */

  ghost predicate UniqueIds<E>(ws: seq<WindowRecord<E>>) {
    forall i, j :: 0 <= i < j < |ws| ==> ws[i].id != ws[j].id
  }

  ghost predicate UniqueZs<E>(ws: seq<WindowRecord<E>>) {
    forall i, j :: 0 <= i < j < |ws| ==> ws[i].z != ws[j].z
  }

  ghost predicate ZBelowWatermark<E>(s: State<E>) {
    forall i :: 0 <= i < |s.windows| ==> s.windows[i].z <= s.nextZ
  }

  /** Ids unique, z values unique and none above the watermark. */
  ghost predicate Inv<E>(s: State<E>) {
    UniqueIds(s.windows) && UniqueZs(s.windows) && ZBelowWatermark(s)
  }

  /** The ids the live windows carry. */
  ghost predicate IsLive<E>(s: State<E>, id: int) {
    exists i :: 0 <= i < |s.windows| && s.windows[i].id == id
  }

  /** An action keeps the invariant when it does not open a window under an id already live. */
  ghost predicate Admissible<E>(s: State<E>, a: Action<E>) {
    a.Open? ==> !IsLive(s, a.id)
  }

  /* ---------------------------------------------------------------------- */
  /* Properties of each action                                              */
  /* ---------------------------------------------------------------------- */

  /** OPEN appends one record on top of the stack and leaves the prefix alone. */
  lemma OpenAppends<E>(s: State<E>, id: int, element: E)
    ensures var r := Reduce(s, Open(id, element));
      |r.windows| == |s.windows| + 1 &&
      r.windows[..|s.windows|] == s.windows &&
      r.windows[|s.windows|] == WindowRecord(id, element, s.nextZ + 1) &&
      r.nextZ == s.nextZ + 1
  {
  }

  /** FOCUS keeps the list's length, id order and elements, raises exactly
      the matching records, and advances the watermark even for an absent id. */
  lemma FocusRaises<E>(s: State<E>, id: int)
    ensures var r := Reduce(s, Focus(id));
      r.nextZ == s.nextZ + 1 &&
      |r.windows| == |s.windows| &&
      (forall i :: 0 <= i < |s.windows| ==>
         r.windows[i].id == s.windows[i].id &&
         r.windows[i].element == s.windows[i].element) &&
      (forall i :: 0 <= i < |s.windows| && s.windows[i].id == id ==>
         r.windows[i].z == s.nextZ + 1) &&
      (forall i :: 0 <= i < |s.windows| && s.windows[i].id != id ==>
         r.windows[i] == s.windows[i])
  {
  }

  /** FOCUS on an id nobody carries changes only the watermark. */
  lemma FocusAbsent<E>(s: State<E>, id: int)
    requires !IsLive(s, id)
    ensures Reduce(s, Focus(id)) == State(s.windows, s.nextZ + 1)
  {
    var r := Reduce(s, Focus(id));
    assert forall i :: 0 <= i < |s.windows| ==> r.windows[i] == s.windows[i];
  }

  /** In a reachable state, FOCUS puts the focused window strictly in front of every other one. */
  lemma FocusBringsToFront<E>(s: State<E>, k: int)
    requires Inv(s)
    requires 0 <= k < |s.windows|
    ensures var r := Reduce(s, Focus(s.windows[k].id));
      forall j :: 0 <= j < |r.windows| && j != k ==> r.windows[j].z < r.windows[k].z
  {
  }

  /** CLOSE removes exactly the records with that id, keeps the others (with
      their z) in their relative order, and leaves the watermark. */
  lemma CloseRemoves<E>(s: State<E>, id: int)
    ensures var r := Reduce(s, Close(id));
      r.nextZ == s.nextZ &&
      (forall i :: 0 <= i < |r.windows| ==> r.windows[i] in s.windows && r.windows[i].id != id) &&
      (forall i :: 0 <= i < |s.windows| && s.windows[i].id != id ==> s.windows[i] in r.windows) &&
      IsSubsequence(r.windows, s.windows) &&
      |r.windows| + CountId(s.windows, id) == |s.windows| &&
      !IsLive(r, id)
  {
  }

  /** Closing an id that is not live changes nothing. */
  lemma {:induction false} WithoutAbsent<E>(ws: seq<WindowRecord<E>>, id: int)
    requires forall i :: 0 <= i < |ws| ==> ws[i].id != id
    ensures Without(ws, id) == ws
  {
    if ws != [] {
      WithoutAbsent(ws[1..], id);
      assert ws == [ws[0]] + ws[1..];
    }
  }

  lemma CloseAbsentIsNoOp<E>(s: State<E>, id: int)
    requires !IsLive(s, id)
    ensures Reduce(s, Close(id)) == s
  {
    WithoutAbsent(s.windows, id);
  }

  /** Closing the same id twice is the same as closing it once. */
  lemma CloseIdempotent<E>(s: State<E>, id: int)
    ensures Reduce(Reduce(s, Close(id)), Close(id)) == Reduce(s, Close(id))
  {
    var r := Reduce(s, Close(id));
    forall i | 0 <= i < |r.windows| ensures r.windows[i].id != id {
      assert r.windows[i] in r.windows;
    }
    WithoutAbsent(r.windows, id);
  }

  /** CLOSE_ALL empties the list and keeps the watermark. */
  lemma CloseAllEmpties<E>(s: State<E>)
    ensures Reduce(s, CloseAll) == State([], s.nextZ)
  {
  }

  /** The watermark never goes down. */
  lemma WatermarkMonotone<E>(s: State<E>, a: Action<E>)
    ensures Reduce(s, a).nextZ >= s.nextZ
  {
  }

  /* ---------------------------------------------------------------------- */
  /* Preservation of the invariant                                          */
  /* ---------------------------------------------------------------------- */

  lemma {:induction false} WithoutKeepsUnique<E>(ws: seq<WindowRecord<E>>, id: int)
    requires UniqueIds(ws) && UniqueZs(ws)
    ensures UniqueIds(Without(ws, id)) && UniqueZs(Without(ws, id))
  {
    if ws != [] {
      var tail := ws[1..];
      assert UniqueIds(tail) && UniqueZs(tail) by {
        forall i, j | 0 <= i < j < |tail|
          ensures tail[i].id != tail[j].id && tail[i].z != tail[j].z
        {
          assert tail[i] == ws[i + 1] && tail[j] == ws[j + 1];
        }
      }
      WithoutKeepsUnique(tail, id);
      if ws[0].id != id {
        var rest := Without(tail, id);
        var r := [ws[0]] + rest;
        assert Without(ws, id) == r;
        forall j | 0 <= j < |rest| ensures ws[0].id != rest[j].id && ws[0].z != rest[j].z {
          assert rest[j] in rest;
          var k :| 0 <= k < |tail| && tail[k] == rest[j];
          assert tail[k] == ws[k + 1];
        }
        forall i, j | 0 <= i < j < |r| ensures r[i].id != r[j].id && r[i].z != r[j].z {
          assert r[j] == rest[j - 1];
          if i > 0 {
            assert r[i] == rest[i - 1];
          }
        }
      }
    }
  }

  /** Every admissible action keeps ids unique, z values unique and under the watermark. */
  lemma ReducePreservesInv<E>(s: State<E>, a: Action<E>)
    requires Inv(s)
    requires Admissible(s, a)
    ensures Inv(Reduce(s, a))
  {
    var r := Reduce(s, a);
    match a
    case Open(id, element) =>
      assert r.windows == s.windows + [WindowRecord(id, element, s.nextZ + 1)];
      assert forall i :: 0 <= i < |s.windows| ==> s.windows[i].id != id;
    case Focus(id) =>
    case Close(id) =>
      WithoutKeepsUnique(s.windows, id);
      forall i | 0 <= i < |r.windows| ensures r.windows[i].z <= r.nextZ {
        assert r.windows[i] in r.windows;
      }
    case CloseAll =>
  }

  /* ---------------------------------------------------------------------- */
  /* The manager: an id counter next to the reducer state                   */
  /* ---------------------------------------------------------------------- */

  /** The API object of the provider: `spawn`, `close`, `closeAll`, `focus`.
      Each call dispatches one action, which the reducer applies in order. */
  class Manager<E> {
    var idCounter: int
    var state: State<E>
    /** Every id `Spawn` has handed out, in the order it did so. */
    ghost var issued: seq<int>

    ghost predicate Valid()
      reads this
    {
      idCounter >= 0 &&
      Inv(state) &&
      |issued| == idCounter &&
      (forall k :: 0 <= k < |issued| ==> issued[k] == k + 1) &&
      (forall i :: 0 <= i < |state.windows| ==> 1 <= state.windows[i].id <= idCounter)
    }

    constructor ()
      ensures Valid()
      ensures idCounter == 0 && issued == []
      ensures state == Initial()
    {
      idCounter := 0;
      state := Initial();
      issued := [];
    }

    /** Opens `element` under a fresh id and returns the id. */
    method Spawn(element: E) returns (id: int)
      requires Valid()
      modifies this
      ensures Valid()
      ensures id == old(idCounter) + 1 && idCounter == id
      ensures id !in old(issued) && issued == old(issued) + [id]
      ensures forall k :: 0 <= k < |old(issued)| ==> old(issued)[k] < id
      ensures state == Reduce(old(state), Action.Open(id, element))
    {
      idCounter := idCounter + 1;
      id := idCounter;
      issued := issued + [id];
      ReducePreservesInv(state, Action.Open(id, element));
      state := Reduce(state, Action.Open(id, element));
    }

    method Close(id: int)
      requires Valid()
      modifies this
      ensures Valid()
      ensures idCounter == old(idCounter) && issued == old(issued)
      ensures state == Reduce(old(state), Action.Close(id))
    {
      ReducePreservesInv(state, Action.Close(id));
      state := Reduce(state, Action.Close(id));
      forall i | 0 <= i < |state.windows| ensures 1 <= state.windows[i].id <= idCounter {
        assert state.windows[i] in state.windows;
      }
    }

    method CloseAll()
      requires Valid()
      modifies this
      ensures Valid()
      ensures idCounter == old(idCounter) && issued == old(issued)
      ensures state == Reduce(old(state), Action.CloseAll)
    {
      state := Reduce(state, Action.CloseAll);
    }

    method Focus(id: int)
      requires Valid()
      modifies this
      ensures Valid()
      ensures idCounter == old(idCounter) && issued == old(issued)
      ensures state == Reduce(old(state), Action.Focus(id))
    {
      ReducePreservesInv(state, Action.Focus(id));
      state := Reduce(state, Action.Focus(id));
    }
  }

  /** Spawn A, spawn B, focus A, close B, starting from a fresh manager. */
  method Scenario() returns (a: int, b: int, windows: seq<WindowRecord<string>>)
    ensures a == 1 && b == 2
    ensures windows == [WindowRecord(1, "A", 1003)]
  {
    var m := new Manager<string>();
    a := m.Spawn("A");
    assert m.state.windows == [WindowRecord(1, "A", 1001)];
    b := m.Spawn("B");
    assert m.state.windows == [WindowRecord(1, "A", 1001), WindowRecord(2, "B", 1002)];
    m.Focus(a);
    assert m.state.windows == [WindowRecord(1, "A", 1003), WindowRecord(2, "B", 1002)];
    m.Close(b);
    assert m.state.windows == Without([WindowRecord(1, "A", 1003), WindowRecord(2, "B", 1002)], 2);
    windows := m.state.windows;
  }
}
