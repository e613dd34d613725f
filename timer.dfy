/** The model of `iced-timer`: a list of countdown timers kept in a `TimerApp` and
    edited, started, stopped, deleted, appended and ticked by `TimerApp::update`. */
module IcedTimer {
  import opened Wrappers
  import Decimal

  newtype u32 = x: int | 0 <= x < 0x1_0000_0000

  /** A version-4 UUID is 128 bits; only equality of ids matters here. */
  type Uuid = bv128

  datatype Timer = Timer(
    id: Uuid,
    name: string,
    hours: u32,
    minutes: u32,
    seconds: u32,
    isRunning: bool)

  datatype Message =
    | NameChanged(id: Uuid, name: string)
    | HoursChanged(id: Uuid, hours: u32)
    | MinutesChanged(id: Uuid, minutes: u32)
    | SecondsChanged(id: Uuid, seconds: u32)
    | StartTimer(id: Uuid)
    | StopTimer(id: Uuid)
    | DeleteTimer(id: Uuid)
    /** `AddTimer`, carrying the id that `Uuid::new_v4()` draws for the new timer. */
    | AddTimer(newId: Uuid)
    | Tick

  /** The time left on a timer, in seconds. */
  function TotalSeconds(t: Timer): nat {
    3600 * t.hours as int + 60 * t.minutes as int + t.seconds as int
  }

  // ---------------------------------------------------------------------------
  // One second of one timer

  /** What `Tick` does to one timer: a borrow-style decrement of h:m:s, and a running
      timer already at 0:0:0 stops. */
  function TickTimer(t: Timer): Timer {
    if !t.isRunning then t
    else if t.seconds > 0 then t.(seconds := t.seconds - 1)
    else if t.minutes > 0 then t.(minutes := t.minutes - 1, seconds := 59)
    else if t.hours > 0 then t.(hours := t.hours - 1, minutes := 59, seconds := 59)
    else t.(isRunning := false)
  }

  /** `k` ticks of one timer. */
  function TickN(t: Timer, k: nat): Timer
    decreases k
  {
    if k == 0 then t else TickN(TickTimer(t), k - 1)
  }

  /** A running timer with time left loses exactly one second and keeps running. */
  lemma TickCountsDown(t: Timer)
    requires t.isRunning && TotalSeconds(t) > 0
    ensures TotalSeconds(TickTimer(t)) == TotalSeconds(t) - 1
    ensures TickTimer(t).isRunning
    ensures TickTimer(t).id == t.id && TickTimer(t).name == t.name
  {
  }

  /** A running timer at 0:0:0 stops and changes nothing else. */
  lemma TickStopsAtZero(t: Timer)
    requires t.isRunning && TotalSeconds(t) == 0
    ensures TickTimer(t) == t.(isRunning := false)
  {
  }

  lemma TickLeavesStoppedTimer(t: Timer)
    requires !t.isRunning
    ensures TickTimer(t) == t
  {
  }

  /** No field underflows: each one is kept, lowered by one from a positive value, or,
      when it was 0 and a higher field lent a unit, refilled to 59. */
  lemma TickNeverUnderflows(t: Timer)
    ensures var r := TickTimer(t);
            && (r.seconds == t.seconds || (t.seconds > 0 && r.seconds == t.seconds - 1)
                || (t.seconds == 0 && r.seconds == 59))
            && (r.minutes == t.minutes || (t.minutes > 0 && r.minutes == t.minutes - 1)
                || (t.minutes == 0 && r.minutes == 59))
            && (r.hours == t.hours || (t.hours > 0 && r.hours == t.hours - 1))
  {
    if t.isRunning && t.seconds == 0 {
      if t.minutes > 0 {
        assert TickTimer(t).minutes == t.minutes - 1 && TickTimer(t).seconds == 59;
      } else if t.hours > 0 {
        assert TickTimer(t).hours == t.hours - 1;
      }
    }
  }

  /** After a borrow the refilled fields are exactly 59. */
  lemma TickRefillsWith59(t: Timer)
    requires t.isRunning && t.seconds == 0 && (t.minutes > 0 || t.hours > 0)
    ensures t.minutes > 0 ==> TickTimer(t) == t.(minutes := t.minutes - 1, seconds := 59)
    ensures t.minutes == 0 ==> TickTimer(t) == t.(hours := t.hours - 1, minutes := 59, seconds := 59)
  {
  }

  /** A running timer with T seconds left is still running at 0:0:0 after exactly T
      ticks, and tick T + 1 stops it. */
  lemma {:induction false} CountdownTakesTotalTicks(t: Timer)
    requires t.isRunning
    ensures var r := TickN(t, TotalSeconds(t));
            r.isRunning && r.hours == 0 && r.minutes == 0 && r.seconds == 0
            && r.id == t.id && r.name == t.name
    ensures TickN(t, TotalSeconds(t) + 1) == t.(hours := 0, minutes := 0, seconds := 0, isRunning := false)
    decreases TotalSeconds(t)
  {
    var n := TotalSeconds(t);
    if n == 0 {
      assert TickN(t, 1) == TickN(TickTimer(t), 0);
    } else {
      TickCountsDown(t);
      CountdownTakesTotalTicks(TickTimer(t));
      assert TickN(t, n) == TickN(TickTimer(t), n - 1);
      assert TickN(t, n + 1) == TickN(TickTimer(t), n);
    }
  }

  // ---------------------------------------------------------------------------
  // The list of timers

  ghost predicate DistinctIds(ts: seq<Timer>) {
    forall i, j :: 0 <= i < j < |ts| ==> ts[i].id != ts[j].id
  }

  predicate IsUnused(ts: seq<Timer>, id: Uuid) {
    forall i :: 0 <= i < |ts| ==> ts[i].id != id
  }

  /** The position `iter_mut().find(|t| t.id == id)` stops at: the first timer with
      that id, or None when there is none. */
  function FirstIndex(ts: seq<Timer>, id: Uuid): (r: Option<nat>)
    ensures r.Some? ==> r.value < |ts| && ts[r.value].id == id
    ensures r.Some? ==> forall j :: 0 <= j < r.value ==> ts[j].id != id
    ensures r.None? <==> IsUnused(ts, id)
  {
    if ts == [] then None
    else if ts[0].id == id then Some(0)
    else match FirstIndex(ts[1..], id)
      case None => None
      case Some(k) => Some(k + 1)
  }

  predicate IsEdit(m: Message) {
    m.NameChanged? || m.HoursChanged? || m.MinutesChanged? || m.SecondsChanged?
    || m.StartTimer? || m.StopTimer?
  }

  /** The one field an editing message writes. */
  function Edit(m: Message, t: Timer): Timer
    requires IsEdit(m)
  {
    match m
    case NameChanged(_, name) => t.(name := name)
    case HoursChanged(_, hours) => t.(hours := hours)
    case MinutesChanged(_, minutes) => t.(minutes := minutes)
    case SecondsChanged(_, seconds) => t.(seconds := seconds)
    case StartTimer(_) => t.(isRunning := true)
    case StopTimer(_) => t.(isRunning := false)
  }

  /** An editing message applied to the first timer with its id, if any. */
  function EditFirst(ts: seq<Timer>, m: Message): seq<Timer>
    requires IsEdit(m)
  {
    match FirstIndex(ts, m.id)
    case None => ts
    case Some(k) => ts[k := Edit(m, ts[k])]
  }

  /** `retain(|t| t.id != id)`. */
  function Without(ts: seq<Timer>, id: Uuid): (r: seq<Timer>)
    ensures |r| <= |ts|
    ensures IsUnused(ts, id) ==> r == ts
  {
    if ts == [] then []
    else if ts[0].id == id then Without(ts[1..], id)
    else [ts[0]] + Without(ts[1..], id)
  }

  /** `retain` keeps exactly the timers whose id differs. */
  lemma {:induction false} WithoutMembers(ts: seq<Timer>, id: Uuid)
    ensures forall t :: t in Without(ts, id) <==> t in ts && t.id != id
  {
    if ts != [] {
      WithoutMembers(ts[1..], id);
      assert forall t :: t in ts <==> t == ts[0] || t in ts[1..];
    }
  }

  /** `Tick`: every timer ticked in place. */
  function TickAll(ts: seq<Timer>): (r: seq<Timer>) {
    seq(|ts|, i requires 0 <= i < |ts| => TickTimer(ts[i]))
  }

  /** The timer `AddTimer` appends to a list of `count - 1` timers. */
  function NewTimer(id: Uuid, count: nat): Timer {
    Timer(id, "Timer " + Decimal.NatToString(count), 0, 1, 0, false)
  }

  /** `TimerApp::update` on the list. */
  function Apply(ts: seq<Timer>, m: Message): seq<Timer> {
    match m
    case DeleteTimer(id) => Without(ts, id)
    case AddTimer(newId) => ts + [NewTimer(newId, |ts| + 1)]
    case Tick => TickAll(ts)
    case _ => EditFirst(ts, m)
  }

  /** `k` ticks of the whole list. */
  function Ticks(ts: seq<Timer>, k: nat): (r: seq<Timer>)
    ensures |r| == |ts|
    decreases k
  {
    if k == 0 then ts else Ticks(Apply(ts, Tick), k - 1)
  }

  // ---------------------------------------------------------------------------
  // What `update` promises

  /** `Tick` keeps the length, the order, every id and name, leaves stopped timers
      alone and ticks each running one. */
  lemma TickKeepsList(ts: seq<Timer>)
    ensures var r := Apply(ts, Tick);
            |r| == |ts|
            && (forall i :: 0 <= i < |ts| ==> r[i] == TickTimer(ts[i]))
            && (forall i :: 0 <= i < |ts| ==> r[i].id == ts[i].id && r[i].name == ts[i].name)
            && (forall i :: 0 <= i < |ts| && !ts[i].isRunning ==> r[i] == ts[i])
  {
  }

  /** Timers tick independently: after k ticks of the list, each timer is its own
      k-th tick. */
  lemma {:induction false} TicksPointwise(ts: seq<Timer>, k: nat, i: nat)
    requires i < |ts|
    ensures Ticks(ts, k)[i] == TickN(ts[i], k)
    decreases k
  {
    if k > 0 {
      TicksPointwise(Apply(ts, Tick), k - 1, i);
    }
  }

  /** In a list, a running timer with T seconds left reads 0:0:0 after T ticks and is
      stopped by tick T + 1. */
  lemma ListCountdown(ts: seq<Timer>, i: nat)
    requires i < |ts| && ts[i].isRunning
    ensures var r := Ticks(ts, TotalSeconds(ts[i]))[i];
            r.isRunning && TotalSeconds(r) == 0
    ensures !Ticks(ts, TotalSeconds(ts[i]) + 1)[i].isRunning
  {
    TicksPointwise(ts, TotalSeconds(ts[i]), i);
    TicksPointwise(ts, TotalSeconds(ts[i]) + 1, i);
    CountdownTakesTotalTicks(ts[i]);
  }

  /** `AddTimer` appends one stopped 0:1:0 timer named after the new length, with the
      given id, and keeps every existing timer where it was. */
  lemma AddTimerAppends(ts: seq<Timer>, id: Uuid)
    ensures var r := Apply(ts, AddTimer(id));
            |r| == |ts| + 1 && r[..|ts|] == ts
            && r[|ts|] == Timer(id, "Timer " + Decimal.NatToString(|ts| + 1), 0, 1, 0, false)
  {
    assert (ts + [NewTimer(id, |ts| + 1)])[..|ts|] == ts;
  }

  /** Starting from the single "Timer 1", `AddTimer` adds "Timer 2". */
  lemma AddTimerExample(first: Uuid, id: Uuid)
    ensures Apply([Timer(first, "Timer 1", 0, 1, 0, false)], AddTimer(id))
         == [Timer(first, "Timer 1", 0, 1, 0, false), Timer(id, "Timer 2", 0, 1, 0, false)]
  {
    assert Decimal.NatToString(2) == "2";
    assert "Timer " + "2" == "Timer 2";
    assert |[Timer(first, "Timer 1", 0, 1, 0, false)]| + 1 == 2;
  }

  /** `retain` keeps order: removing from a concatenation removes from each part. */
  lemma {:induction false} WithoutConcat(a: seq<Timer>, b: seq<Timer>, id: Uuid)
    ensures Without(a + b, id) == Without(a, id) + Without(b, id)
  {
    if a != [] {
      assert (a + b)[0] == a[0];
      assert (a + b)[1..] == a[1..] + b;
      WithoutConcat(a[1..], b, id);
      if a[0].id == id {
        assert Without(a + b, id) == Without(a[1..] + b, id);
        assert Without(a, id) == Without(a[1..], id);
      } else {
        assert Without(a + b, id) == [a[0]] + Without(a[1..] + b, id);
        assert Without(a, id) == [a[0]] + Without(a[1..], id);
      }
    } else {
      assert a + b == b;
    }
  }

  /** `DeleteTimer(id)` leaves exactly the timers with another id, in their order; an
      unknown id leaves the list as it was. */
  lemma DeleteTimerRemoves(ts: seq<Timer>, id: Uuid)
    ensures var r := Apply(ts, DeleteTimer(id));
            (forall t :: t in r <==> t in ts && t.id != id)
            && (IsUnused(ts, id) ==> r == ts)
  {
    WithoutMembers(ts, id);
  }

  /** With distinct ids, no timer after one with `id` has that id again. */
  lemma UnusedAfterDistinct(ts: seq<Timer>, id: Uuid, k: nat)
    requires DistinctIds(ts) && k < |ts| && ts[k].id == id
    ensures IsUnused(ts[k + 1..], id)
  {
    var after := ts[k + 1..];
    forall j | 0 <= j < |after| ensures after[j].id != id {
      assert after[j] == ts[k + 1 + j];
    }
  }

  /** Removing `id` from a list where it occurs once, at `k`, leaves the rest. */
  lemma WithoutSingle(ts: seq<Timer>, id: Uuid, k: nat)
    requires k < |ts| && ts[k].id == id
    requires IsUnused(ts[..k], id) && IsUnused(ts[k + 1..], id)
    ensures Without(ts, id) == ts[..k] + ts[k + 1..]
  {
    var before, after := ts[..k], ts[k + 1..];
    assert ts == before + ([ts[k]] + after);
    assert Without([ts[k]], id) == [] by {
      assert [ts[k]][1..] == [];
    }
    calc {
      Without(ts, id);
    ==  { WithoutConcat(before, [ts[k]] + after, id); }
      Without(before, id) + Without([ts[k]] + after, id);
    ==  { WithoutConcat([ts[k]], after, id); }
      Without(before, id) + (Without([ts[k]], id) + Without(after, id));
    ==
      before + after;
    }
  }

  /** With distinct ids, deleting a present id removes exactly that one timer. */
  lemma DeleteTimerRemovesOne(ts: seq<Timer>, id: Uuid, k: nat)
    requires DistinctIds(ts) && FirstIndex(ts, id) == Some(k)
    ensures Apply(ts, DeleteTimer(id)) == ts[..k] + ts[k + 1..]
  {
    UnusedAfterDistinct(ts, id, k);
    assert IsUnused(ts[..k], id);
    WithoutSingle(ts, id, k);
  }

  /** An editing message writes one field of the first timer with its id and nothing
      else; with an unknown id it changes nothing. */
  lemma EditChangesFirstMatch(ts: seq<Timer>, m: Message)
    requires IsEdit(m)
    ensures |Apply(ts, m)| == |ts|
    ensures IsUnused(ts, m.id) ==> Apply(ts, m) == ts
    ensures FirstIndex(ts, m.id).Some? ==>
              var k := FirstIndex(ts, m.id).value;
              Apply(ts, m)[k] == Edit(m, ts[k]) && Apply(ts, m)[k].id == ts[k].id
              && forall j :: 0 <= j < |ts| && j != k ==> Apply(ts, m)[j] == ts[j]
  {
  }

  /** Every message keeps the ids distinct, given that `AddTimer` draws an unused id. */
  lemma ApplyKeepsIdsDistinct(ts: seq<Timer>, m: Message)
    requires DistinctIds(ts)
    requires m.AddTimer? ==> IsUnused(ts, m.newId)
    ensures DistinctIds(Apply(ts, m))
  {
    match m {
      case DeleteTimer(id) => WithoutKeepsDistinct(ts, id);
      case AddTimer(newId) => AppendKeepsDistinct(ts, NewTimer(newId, |ts| + 1));
      case Tick => TickKeepsDistinct(ts);
      case _ => EditKeepsDistinct(ts, m);
    }
  }

  lemma AppendKeepsDistinct(ts: seq<Timer>, t: Timer)
    requires DistinctIds(ts) && IsUnused(ts, t.id)
    ensures DistinctIds(ts + [t])
  {
    var r := ts + [t];
    forall i, j | 0 <= i < j < |r| ensures r[i].id != r[j].id {
      assert r[i] == ts[i];
      if j < |ts| {
        assert r[j] == ts[j];
      }
    }
  }

  lemma TickKeepsDistinct(ts: seq<Timer>)
    requires DistinctIds(ts)
    ensures DistinctIds(Apply(ts, Tick))
  {
    TickKeepsList(ts);
    SameIdsKeepDistinct(ts, Apply(ts, Tick));
  }

  lemma EditKeepsDistinct(ts: seq<Timer>, m: Message)
    requires DistinctIds(ts) && IsEdit(m)
    ensures DistinctIds(Apply(ts, m))
  {
    EditChangesFirstMatch(ts, m);
    SameIdsKeepDistinct(ts, Apply(ts, m));
  }

  lemma SameIdsKeepDistinct(a: seq<Timer>, b: seq<Timer>)
    requires DistinctIds(a) && |a| == |b|
    requires forall i :: 0 <= i < |a| ==> a[i].id == b[i].id
    ensures DistinctIds(b)
  {
  }

  lemma IdsDistinctCons(t: Timer, rest: seq<Timer>)
    requires DistinctIds(rest)
    requires forall j :: 0 <= j < |rest| ==> rest[j].id != t.id
    ensures DistinctIds([t] + rest)
  {
    var ts := [t] + rest;
    forall i, j | 0 <= i < j < |ts| ensures ts[i].id != ts[j].id {
      assert ts[j] == rest[j - 1];
      if i > 0 {
        assert ts[i] == rest[i - 1];
      }
    }
  }

  lemma {:induction false} WithoutKeepsDistinct(ts: seq<Timer>, id: Uuid)
    requires DistinctIds(ts)
    ensures DistinctIds(Without(ts, id))
  {
    if ts != [] {
      assert DistinctIds(ts[1..]) by {
        forall i, j | 0 <= i < j < |ts[1..]| ensures ts[1..][i].id != ts[1..][j].id {
          assert ts[1..][i] == ts[i + 1] && ts[1..][j] == ts[j + 1];
        }
      }
      WithoutKeepsDistinct(ts[1..], id);
      if ts[0].id != id {
        var rest := Without(ts[1..], id);
        WithoutMembers(ts[1..], id);
        forall j | 0 <= j < |rest| ensures rest[j].id != ts[0].id {
          assert rest[j] in ts[1..];
        }
        IdsDistinctCons(ts[0], rest);
      }
    }
  }

  // ---------------------------------------------------------------------------
  // The application state, its list updated in place

  class TimerApp {
    var timers: seq<Timer>

    ghost predicate Valid()
      reads this
    {
      DistinctIds(timers)
    }

    /** `TimerApp::new`, given the id drawn for the first timer. */
    constructor (firstId: Uuid)
      ensures Valid()
      ensures timers == [Timer(firstId, "Timer 1", 0, 1, 0, false)]
    {
      timers := [Timer(firstId, "Timer 1", 0, 1, 0, false)];
    }

    /** The `Tick` arm: one pass over the timers, each decremented in place. */
    method TickTimers()
      requires Valid()
      modifies this
      ensures Valid()
      ensures timers == Apply(old(timers), Tick)
    {
      TickKeepsList(timers);
      var i := 0;
      while i < |timers|
        invariant 0 <= i <= |timers| == |old(timers)|
        invariant forall j :: 0 <= j < i ==> timers[j] == TickTimer(old(timers)[j])
        invariant forall j :: i <= j < |timers| ==> timers[j] == old(timers)[j]
      {
        var t := timers[i];
        if t.isRunning {
          if t.seconds > 0 {
            t := t.(seconds := t.seconds - 1);
          } else if t.minutes > 0 {
            t := t.(minutes := t.minutes - 1, seconds := 59);
          } else if t.hours > 0 {
            t := t.(hours := t.hours - 1, minutes := 59, seconds := 59);
          } else {
            t := t.(isRunning := false);
          }
        }
        assert t == TickTimer(old(timers)[i]);
        timers := timers[i := t];
        i := i + 1;
      }
      assert timers == TickAll(old(timers));
    }

    /** The editing arms: `iter_mut().find` and one field write. */
    method EditTimer(m: Message)
      requires Valid() && IsEdit(m)
      modifies this
      ensures Valid()
      ensures timers == Apply(old(timers), m)
    {
      ApplyKeepsIdsDistinct(timers, m);
      var k := FirstIndex(timers, m.id);
      if k.Some? {
        var t := timers[k.value];
        match m {
          case NameChanged(_, name) => t := t.(name := name);
          case HoursChanged(_, hours) => t := t.(hours := hours);
          case MinutesChanged(_, minutes) => t := t.(minutes := minutes);
          case SecondsChanged(_, seconds) => t := t.(seconds := seconds);
          case StartTimer(_) => t := t.(isRunning := true);
          case StopTimer(_) => t := t.(isRunning := false);
        }
        timers := timers[k.value := t];
      }
    }

    method Update(m: Message)
      requires Valid()
      requires m.AddTimer? ==> IsUnused(timers, m.newId)
      modifies this
      ensures Valid()
      ensures timers == Apply(old(timers), m)
    {
      ApplyKeepsIdsDistinct(timers, m);
      match m {
        case DeleteTimer(id) =>
          timers := Without(timers, id);
        case AddTimer(newId) =>
          timers := timers + [NewTimer(newId, |timers| + 1)];
        case Tick =>
          TickTimers();
        case _ =>
          EditTimer(m);
      }
    }
  }
}
