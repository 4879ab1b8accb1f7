/**
 * The alarm manager (`createAlarmManager`): alarms live in the host storage
 * under `$$_alarm##<ulid>`, so listing them in key order lists them in due
 * order; the host's single wake register is kept at the earliest due time.
 *
 * The clock (`Date.now()`) and the random part of each generated id are
 * parameters of the operations that use them.
 */
module Alarm {
  import opened Wrappers
  import opened Strings
  import opened KvStore
  import Ulid
  import opened Serial

  const Prefix := "$$_alarm"
  /** The prefix of every alarm key, `${PREFIX}##`. */
  const KeyPrefix := Prefix + "##"

  /** When an alarm is meant to fire: at a date (in ms), after a delay, or repeatedly. */
  datatype AlarmKind = At(at: int) | In(delay: int) | Every(interval: int)

  datatype AlarmCfg = AlarmCfg(kind: AlarmKind, payload: Value)

  /** What is stored for one alarm. */
  datatype AlarmDetail = AlarmDetail(
    kind: AlarmKind,
    payload: Value,
    id: string,
    attempt: nat,
    previousError: Option<string>)

  /** A listed alarm: its stored detail together with its storage key (`_key`). */
  datatype ListedAlarm = ListedAlarm(detail: AlarmDetail, key: string)

  datatype ListAlarmsCfg = ListAlarmsCfg(start: Option<string>, end: Option<string>, limit: Option<nat>)

  /** What the user's handler did with a payload; a thrown error is caught and logged. */
  datatype HandlerOutcome = Returned | Threw(message: string)

  /** The id generator rejects a time outside 0 .. 2^48 - 1. */
  datatype AlarmError = TimeOutOfRange(ms: int)

  function AlarmKey(id: string): string
  {
    KeyPrefix + id
  }

  function NewAlarm(c: AlarmCfg, id: string): AlarmDetail
  {
    AlarmDetail(c.kind, c.payload, id, 0, None)
  }

  /** The time an alarm is due: the timestamp encoded in its id (-1 for an id that is not a ULID). */
  function DueTime(d: AlarmDetail): int
  {
    match Ulid.DecodeTime(d.id)
    case Some(t) => t
    case None => -1
  }

  predicate IsAlarmKey(k: string)
  {
    StartsWith(k, KeyPrefix)
  }

  /**
   * The storage the manager keeps: sorted by key, and every entry under the
   * alarm prefix is one `scheduleAlarmAt` wrote, keyed by its own ULID.
   */
  ghost predicate AlarmStore(es: seq<(string, AlarmDetail)>)
  {
    && Sorted(es)
    && forall i :: 0 <= i < |es| && IsAlarmKey(es[i].0) ==>
         es[i].0 == AlarmKey(es[i].1.id) && Ulid.IsUlid(es[i].1.id)
  }

  /** The storage listing `listAlarms(c)` asks for: `start` is put under the prefix, `end` is passed as given. */
  function ListOptionsFor(c: ListAlarmsCfg): ListOptions
  {
    var start := if c.start.Some? && c.start.value != "" then KeyPrefix + c.start.value else KeyPrefix;
    ListOptions(Some(start), c.end, Some(KeyPrefix), c.limit)
  }

  function Listed(es: seq<(string, AlarmDetail)>): (r: seq<ListedAlarm>)
    ensures |r| == |es|
    ensures forall i :: 0 <= i < |es| ==> r[i] == ListedAlarm(es[i].1, es[i].0)
  {
    seq(|es|, i requires 0 <= i < |es| => ListedAlarm(es[i].1, es[i].0))
  }

  function ListAlarmsSpec(es: seq<(string, AlarmDetail)>, c: ListAlarmsCfg): seq<ListedAlarm>
  {
    Listed(ListSpec(es, ListOptionsFor(c)))
  }

  /** What `getNextAlarm` returns: the first alarm in key order. */
  function NextAlarm(es: seq<(string, AlarmDetail)>): Option<ListedAlarm>
  {
    var l := ListAlarmsSpec(es, ListAlarmsCfg(None, None, Some(1)));
    if |l| == 0 then None else Some(l[0])
  }

  /** The wake register after `setNextWake`: the next alarm's time, or unchanged when there is none. */
  function WakeAfter(es: seq<(string, AlarmDetail)>, wake: Option<int>): Option<int>
  {
    match NextAlarm(es)
    case None => wake
    case Some(a) => Some(DueTime(a.detail))
  }

  /** The listing the alarm handler runs at time `now`: every alarm keyed below the id generated for `now + 1`. */
  function DueCfg(now: int, rand: nat): ListAlarmsCfg
    requires 0 <= now + 1 <= Ulid.TimeMax && rand < Ulid.Pow32(Ulid.RandomLen)
  {
    ListAlarmsCfg(None, Some(AlarmKey(Ulid.Make(now + 1, rand))), None)
  }

  function Due(es: seq<(string, AlarmDetail)>, now: int, rand: nat): seq<ListedAlarm>
    requires 0 <= now + 1 <= Ulid.TimeMax && rand < Ulid.Pow32(Ulid.RandomLen)
  {
    ListAlarmsSpec(es, DueCfg(now, rand))
  }

  function Payloads(l: seq<ListedAlarm>): (r: seq<Value>)
    ensures |r| == |l|
    ensures forall i :: 0 <= i < |l| ==> r[i] == l[i].detail.payload
  {
    seq(|l|, i requires 0 <= i < |l| => l[i].detail.payload)
  }

  function Keys(l: seq<ListedAlarm>): (r: seq<string>)
    ensures |r| == |l|
    ensures forall i :: 0 <= i < |l| ==> r[i] == l[i].key
  {
    seq(|l|, i requires 0 <= i < |l| => l[i].key)
  }

  // ---------------------------------------------------------------- lemmas

  /** Within the alarm prefix, keys compare as their ids do. */
  lemma AlarmKeyLess(a: string, b: string)
    ensures Less(AlarmKey(a), AlarmKey(b)) <==> Less(a, b)
  {
    LessCommonPrefix(KeyPrefix, a, b);
  }

  lemma ListedMember(es: seq<(string, AlarmDetail)>, a: ListedAlarm)
    ensures a in Listed(es) <==> (a.key, a.detail) in es
  {
    if a in Listed(es) {
      var i :| 0 <= i < |es| && Listed(es)[i] == a;
      assert es[i] == (a.key, a.detail);
    }
    if (a.key, a.detail) in es {
      var i :| 0 <= i < |es| && es[i] == (a.key, a.detail);
      assert Listed(es)[i] == a;
    }
  }

  /** Every alarm listing holds stored alarms only, in ascending key order, within the limit. */
  lemma ListAlarmsProperties(es: seq<(string, AlarmDetail)>, c: ListAlarmsCfg)
    requires AlarmStore(es)
    ensures forall a :: a in ListAlarmsSpec(es, c) ==> (a.key, a.detail) in es && IsAlarmKey(a.key)
    ensures forall i, j :: 0 <= i < j < |ListAlarmsSpec(es, c)| ==>
      Less(ListAlarmsSpec(es, c)[i].key, ListAlarmsSpec(es, c)[j].key)
    ensures c.limit.Some? ==> |ListAlarmsSpec(es, c)| <= c.limit.value
  {
    var o := ListOptionsFor(c);
    ListProperties(es, o);
    var l := ListSpec(es, o);
    forall a | a in ListAlarmsSpec(es, c) ensures (a.key, a.detail) in es && IsAlarmKey(a.key) {
      ListedMember(l, a);
    }
  }

  /** An alarm the manager stored: its key, its ULID, and its due time. */
  lemma StoredAlarm(es: seq<(string, AlarmDetail)>, k: string, d: AlarmDetail)
    requires AlarmStore(es) && (k, d) in es && IsAlarmKey(k)
    ensures k == AlarmKey(d.id) && Ulid.IsUlid(d.id)
    ensures Ulid.DecodeTime(d.id).Some? && DueTime(d) == Ulid.DecodeTime(d.id).value
  {
    var i :| 0 <= i < |es| && es[i] == (k, d);
    Ulid.IsUlidDecodes(d.id);
  }

  /**
   * `getNextAlarm` finds an alarm exactly when one is stored, and the one it
   * finds is due no later than any other.
   */
  lemma NextAlarmIsEarliest(es: seq<(string, AlarmDetail)>)
    requires AlarmStore(es)
    ensures NextAlarm(es).None? <==> forall i :: 0 <= i < |es| ==> !IsAlarmKey(es[i].0)
    ensures NextAlarm(es).Some? ==>
      && (NextAlarm(es).value.key, NextAlarm(es).value.detail) in es
      && IsAlarmKey(NextAlarm(es).value.key)
      && forall i :: 0 <= i < |es| && IsAlarmKey(es[i].0) ==> DueTime(NextAlarm(es).value.detail) <= DueTime(es[i].1)
  {
    var o := ListOptionsFor(ListAlarmsCfg(None, None, Some(1)));
    assert o == ListOptions(Some(KeyPrefix), None, Some(KeyPrefix), Some(1));
    forall i | 0 <= i < |es| ensures Selected(es[i].0, o) <==> IsAlarmKey(es[i].0) {
      if IsAlarmKey(es[i].0) {
        PrefixNotLess(es[i].0, KeyPrefix);
      }
    }
    ListFirstIsLeast(es, o);
    ListProperties(es, o);
    var l := ListSpec(es, o);
    if l != [] {
      var first := l[0];
      assert first in l;
      StoredAlarm(es, first.0, first.1);
      forall i | 0 <= i < |es| && IsAlarmKey(es[i].0) ensures DueTime(first.1) <= DueTime(es[i].1) {
        StoredAlarm(es, es[i].0, es[i].1);
        assert !Less(es[i].0, first.0);
        AlarmKeyLess(es[i].1.id, first.1.id);
        Ulid.IdOrderFollowsTime(es[i].1.id, first.1.id);
      }
    }
  }

  /** After `setNextWake` the wake register holds the earliest due time, if any alarm is stored. */
  lemma WakeIsEarliest(es: seq<(string, AlarmDetail)>, wake: Option<int>)
    requires AlarmStore(es)
    ensures (forall i :: 0 <= i < |es| ==> !IsAlarmKey(es[i].0)) ==> WakeAfter(es, wake) == wake
    ensures forall i :: 0 <= i < |es| && IsAlarmKey(es[i].0) ==>
      WakeAfter(es, wake).Some? && WakeAfter(es, wake).value <= DueTime(es[i].1)
    ensures WakeAfter(es, wake) != wake ==>
      exists i :: 0 <= i < |es| && IsAlarmKey(es[i].0) && WakeAfter(es, wake) == Some(DueTime(es[i].1))
  {
    NextAlarmIsEarliest(es);
    if NextAlarm(es).Some? {
      var a := NextAlarm(es).value;
      var i :| 0 <= i < |es| && es[i] == (a.key, a.detail);
      assert IsAlarmKey(es[i].0) && WakeAfter(es, wake) == Some(DueTime(es[i].1));
    }
  }

  /** The selection behind the handler's listing at `now`: alarm keys below the id generated for `now + 1`. */
  lemma DueOptions(now: int, rand: nat)
    requires 0 <= now + 1 <= Ulid.TimeMax && rand < Ulid.Pow32(Ulid.RandomLen)
    ensures ListOptionsFor(DueCfg(now, rand)) ==
      ListOptions(Some(KeyPrefix), Some(AlarmKey(Ulid.Make(now + 1, rand))), Some(KeyPrefix), None)
    ensures Ulid.DecodeTime(Ulid.Make(now + 1, rand)) == Some(now + 1)
  {
    Ulid.DecodeTimeOfMake(now + 1, rand);
  }

  /** The alarm handler at time `now` runs every stored alarm due at or before `now`. */
  lemma DueIncludesPast(es: seq<(string, AlarmDetail)>, now: int, rand: nat, i: nat)
    requires AlarmStore(es)
    requires 0 <= now + 1 <= Ulid.TimeMax && rand < Ulid.Pow32(Ulid.RandomLen)
    requires i < |es| && IsAlarmKey(es[i].0) && DueTime(es[i].1) <= now
    ensures ListedAlarm(es[i].1, es[i].0) in Due(es, now, rand)
  {
    var m := Ulid.Make(now + 1, rand);
    DueOptions(now, rand);
    var o := ListOptionsFor(DueCfg(now, rand));
    StoredAlarm(es, es[i].0, es[i].1);
    PrefixNotLess(es[i].0, KeyPrefix);
    Ulid.IdOrderFollowsTime(es[i].1.id, m);
    AlarmKeyLess(es[i].1.id, m);
    assert Selected(es[i].0, o);
    assert es[i] in es;
    ListProperties(es, o);
    ListedMember(ListSpec(es, o), ListedAlarm(es[i].1, es[i].0));
  }

  /** The alarm handler at time `now` runs stored alarms only, and none due after `now + 1`. */
  lemma DueExcludesFuture(es: seq<(string, AlarmDetail)>, now: int, rand: nat, a: ListedAlarm)
    requires AlarmStore(es)
    requires 0 <= now + 1 <= Ulid.TimeMax && rand < Ulid.Pow32(Ulid.RandomLen)
    requires a in Due(es, now, rand)
    ensures (a.key, a.detail) in es && IsAlarmKey(a.key) && DueTime(a.detail) <= now + 1
  {
    var m := Ulid.Make(now + 1, rand);
    DueOptions(now, rand);
    var o := ListOptionsFor(DueCfg(now, rand));
    ListProperties(es, o);
    ListedMember(ListSpec(es, o), a);
    StoredAlarm(es, a.key, a.detail);
    AlarmKeyLess(a.detail.id, m);
    Ulid.IdOrderFollowsTime(a.detail.id, m);
  }

  /**
   * What the handler's deletions leave at time `now`: no alarm due at or
   * before `now`, and every entry it did not list exactly as it was, whatever
   * the handler did.
   */
  lemma HandlerLeavesLater(es: seq<(string, AlarmDetail)>, now: int, rand: nat, k: string)
    requires AlarmStore(es)
    requires 0 <= now + 1 <= Ulid.TimeMax && rand < Ulid.Pow32(Ulid.RandomLen)
    ensures var after := RemoveAll(es, Keys(Due(es, now, rand)));
      && (k !in Keys(Due(es, now, rand)) ==> Lookup(after, k) == Lookup(es, k))
      && (IsAlarmKey(k) && Lookup(es, k).Some? && DueTime(Lookup(es, k).value) <= now ==> Lookup(after, k).None?)
  {
    var due := Due(es, now, rand);
    RemoveAllLookup(es, Keys(due), k);
    if IsAlarmKey(k) && Lookup(es, k).Some? && DueTime(Lookup(es, k).value) <= now {
      LookupSome(es, k);
      var i :| 0 <= i < |es| && es[i] == (k, Lookup(es, k).value);
      DueIncludesPast(es, now, rand, i);
      var j :| 0 <= j < |due| && due[j] == ListedAlarm(es[i].1, es[i].0);
      assert Keys(due)[j] == k;
    }
  }

  /** Any alarm listing comes in due order. */
  lemma ListedInDueOrder(es: seq<(string, AlarmDetail)>, c: ListAlarmsCfg, i: nat, j: nat)
    requires AlarmStore(es)
    requires i < j < |ListAlarmsSpec(es, c)|
    ensures DueTime(ListAlarmsSpec(es, c)[i].detail) <= DueTime(ListAlarmsSpec(es, c)[j].detail)
  {
    var l := ListAlarmsSpec(es, c);
    ListAlarmsProperties(es, c);
    assert l[i] in l && l[j] in l;
    StoredAlarm(es, l[i].key, l[i].detail);
    StoredAlarm(es, l[j].key, l[j].detail);
    AlarmKeyLess(l[i].detail.id, l[j].detail.id);
    Ulid.IdOrderFollowsTime(l[i].detail.id, l[j].detail.id);
  }

  /** Storing a freshly generated alarm keeps the storage one the manager keeps. */
  lemma ScheduleKeepsAlarmStore(es: seq<(string, AlarmDetail)>, ms: nat, rand: nat, c: AlarmCfg)
    requires AlarmStore(es)
    requires ms <= Ulid.TimeMax && rand < Ulid.Pow32(Ulid.RandomLen)
    ensures AlarmStore(Insert(es, AlarmKey(Ulid.Make(ms, rand)), NewAlarm(c, Ulid.Make(ms, rand))))
  {
    var id := Ulid.Make(ms, rand);
    var es' := Insert(es, AlarmKey(id), NewAlarm(c, id));
    InsertSorted(es, AlarmKey(id), NewAlarm(c, id));
    Ulid.DecodeTimeOfMake(ms, rand);
    Ulid.IsUlidDecodes(id);
    forall i | 0 <= i < |es'| && IsAlarmKey(es'[i].0)
      ensures es'[i].0 == AlarmKey(es'[i].1.id) && Ulid.IsUlid(es'[i].1.id)
    {
      InsertMember(es, AlarmKey(id), NewAlarm(c, id), es'[i]);
      if es'[i] != (AlarmKey(id), NewAlarm(c, id)) {
        var j :| 0 <= j < |es| && es[j] == es'[i];
      }
    }
  }

  /** Deleting entries keeps the storage one the manager keeps. */
  lemma RemoveAllKeepsAlarmStore(es: seq<(string, AlarmDetail)>, keys: seq<string>)
    requires AlarmStore(es)
    ensures AlarmStore(RemoveAll(es, keys))
  {
    var es' := RemoveAll(es, keys);
    RemoveAllSorted(es, keys);
    forall i | 0 <= i < |es'| && IsAlarmKey(es'[i].0)
      ensures es'[i].0 == AlarmKey(es'[i].1.id) && Ulid.IsUlid(es'[i].1.id)
    {
      RemoveAllMember(es, keys, es'[i]);
      var j :| 0 <= j < |es| && es[j] == es'[i];
    }
  }

  /** One round of the handler's loop: the alarm just run is deleted, its payload recorded. */
  lemma HandlerStep(es: seq<(string, AlarmDetail)>, toRun: seq<ListedAlarm>, i: nat)
    requires AlarmStore(es) && i < |toRun|
    ensures RemoveAll(es, Keys(toRun[..i + 1])) == Remove(RemoveAll(es, Keys(toRun[..i])), toRun[i].key)
    ensures Payloads(toRun[..i + 1]) == Payloads(toRun[..i]) + [toRun[i].detail.payload]
    ensures AlarmStore(RemoveAll(es, Keys(toRun[..i + 1])))
  {
    assert Keys(toRun[..i + 1]) == Keys(toRun[..i]) + [toRun[i].key];
    RemoveAllSnoc(es, Keys(toRun[..i]), toRun[i].key);
    RemoveAllKeepsAlarmStore(es, Keys(toRun[..i + 1]));
  }

  /** The manager `createAlarmManager` returns, over the host storage it was given. */
  class AlarmManager {
    const storage: Store<AlarmDetail>
    const handler: Value -> HandlerOutcome
    /** The configured payload schema's `parse`; the manager never applies it. */
    const payloadParser: Value -> Option<Value>

    ghost predicate Valid()
      reads storage
    {
      storage.Valid() && AlarmStore(storage.entries)
    }

    constructor (storage: Store<AlarmDetail>, handler: Value -> HandlerOutcome, payloadParser: Value -> Option<Value>)
      requires storage.Valid() && AlarmStore(storage.entries)
      ensures this.storage == storage && this.handler == handler && this.payloadParser == payloadParser
      ensures Valid()
    {
      this.storage := storage;
      this.handler := handler;
      this.payloadParser := payloadParser;
    }

    method ListAlarms(c: ListAlarmsCfg) returns (alarms: seq<ListedAlarm>)
      requires Valid()
      ensures alarms == ListAlarmsSpec(storage.entries, c)
      ensures forall a :: a in alarms ==> (a.key, a.detail) in storage.entries && IsAlarmKey(a.key)
      ensures forall i, j :: 0 <= i < j < |alarms| ==> Less(alarms[i].key, alarms[j].key)
      ensures c.limit.Some? ==> |alarms| <= c.limit.value
    {
      var entries := storage.List(ListOptionsFor(c));
      alarms := Listed(entries);
      ListAlarmsProperties(storage.entries, c);
    }

    method GetNextAlarm() returns (next: Option<ListedAlarm>)
      requires Valid()
      ensures next == NextAlarm(storage.entries)
      ensures next.None? <==> forall i :: 0 <= i < |storage.entries| ==> !IsAlarmKey(storage.entries[i].0)
      ensures next.Some? ==>
        && (next.value.key, next.value.detail) in storage.entries
        && IsAlarmKey(next.value.key)
        && forall i :: 0 <= i < |storage.entries| && IsAlarmKey(storage.entries[i].0) ==>
             DueTime(next.value.detail) <= DueTime(storage.entries[i].1)
    {
      var alarms := ListAlarms(ListAlarmsCfg(None, None, Some(1)));
      next := if |alarms| == 0 then None else Some(alarms[0]);
      NextAlarmIsEarliest(storage.entries);
    }

    method SetNextWake()
      requires Valid()
      modifies storage`alarm
      ensures Valid()
      ensures storage.alarm == WakeAfter(storage.entries, old(storage.alarm))
    {
      var next := GetNextAlarm();
      if next.Some? {
        StoredAlarm(storage.entries, next.value.key, next.value.detail);
        var time := Ulid.DecodeTime(next.value.detail.id).value;
        storage.SetAlarm(time);
      }
    }

    /** Stores a new alarm due at `ms`, keyed by a ULID for `ms`, and resets the wake time. */
    method ScheduleAlarmAt(ms: int, c: AlarmCfg, rand: nat) returns (r: Result<string, AlarmError>)
      requires Valid() && rand < Ulid.Pow32(Ulid.RandomLen)
      modifies storage
      ensures Valid()
      ensures r.Failure? <==> !(0 <= ms <= Ulid.TimeMax)
      ensures r.Failure? ==> storage.entries == old(storage.entries) && storage.alarm == old(storage.alarm)
      ensures r.Success? ==>
        && r.value == Ulid.Make(ms, rand)
        && storage.entries == Insert(old(storage.entries), AlarmKey(r.value), NewAlarm(c, r.value))
        && storage.alarm == WakeAfter(storage.entries, old(storage.alarm))
      ensures r.Success? ==>
        && storage.alarm.Some? && storage.alarm.value <= ms
    {
      var id := Ulid.Generate(ms, rand);
      if id.None? {
        return Failure(TimeOutOfRange(ms));
      }
      var es := storage.entries;
      ScheduleKeepsAlarmStore(es, ms, rand, c);
      storage.Put(AlarmKey(id.value), NewAlarm(c, id.value));
      SetNextWake();
      r := Success(id.value);
      Ulid.DecodeTimeOfMake(ms, rand);
      InsertLookup(es, AlarmKey(id.value), NewAlarm(c, id.value), AlarmKey(id.value));
      LookupSome(storage.entries, AlarmKey(id.value));
      var i :| 0 <= i < |storage.entries| && storage.entries[i] == (AlarmKey(id.value), NewAlarm(c, id.value));
      assert IsAlarmKey(storage.entries[i].0);
      WakeIsEarliest(storage.entries, old(storage.alarm));
    }

    /** Schedules `payload` for the absolute time `at`, recorded as `At(at)`. */
    method ScheduleAt(at: int, payload: Value, rand: nat) returns (r: Result<string, AlarmError>)
      requires Valid() && rand < Ulid.Pow32(Ulid.RandomLen)
      modifies storage
      ensures Valid()
      ensures r.Failure? <==> !(0 <= at <= Ulid.TimeMax)
      ensures r.Failure? ==> storage.entries == old(storage.entries) && storage.alarm == old(storage.alarm)
      ensures r.Success? ==>
        && r.value == Ulid.Make(at, rand)
        && storage.entries == Insert(old(storage.entries), AlarmKey(r.value), AlarmDetail(At(at), payload, r.value, 0, None))
        && storage.alarm == WakeAfter(storage.entries, old(storage.alarm))
        && storage.alarm.Some? && storage.alarm.value <= at
    {
      r := ScheduleAlarmAt(at, AlarmCfg(At(at), payload), rand);
    }

    /** Schedules `payload` for `delay` milliseconds after `now` (the caller's clock), recorded as `In(delay)`;
        the ghost `due` names the resulting due time for the contract. */
    method ScheduleIn(delay: int, payload: Value, now: int, rand: nat) returns (r: Result<string, AlarmError>, ghost due: int)
      requires Valid() && rand < Ulid.Pow32(Ulid.RandomLen)
      modifies storage
      ensures Valid()
      ensures due == now + delay
      ensures r.Failure? <==> !(0 <= due <= Ulid.TimeMax)
      ensures r.Failure? ==> storage.entries == old(storage.entries) && storage.alarm == old(storage.alarm)
      ensures r.Success? ==>
        && r.value == Ulid.Make(due, rand)
        && storage.entries == Insert(old(storage.entries), AlarmKey(r.value), AlarmDetail(In(delay), payload, r.value, 0, None))
        && storage.alarm == WakeAfter(storage.entries, old(storage.alarm))
        && storage.alarm.Some? && storage.alarm.value <= due
    {
      var at := now + delay;
      r := ScheduleAlarmAt(at, AlarmCfg(In(delay), payload), rand);
      due := at;
    }

    /** Not implemented: returns a fixed placeholder id and stores nothing. */
    method ScheduleEvery(interval: int, payload: Value) returns (id: string)
      ensures id == "1234"
    {
      id := "1234";
    }

    /** Not implemented: reports success and removes nothing. */
    method Cancel(alarmId: string) returns (ok: bool)
      ensures ok
    {
      ok := true;
    }

    /** Not implemented: reports success and removes nothing. */
    method CancelAll() returns (ok: bool)
      ensures ok
    {
      ok := true;
    }

    /**
     * The loop of `alarmHandler`: each listed alarm's payload goes to the
     * handler, and the alarm is deleted whatever the handler returned or threw.
     */
    method RunAndDelete(toRun: seq<ListedAlarm>) returns (calls: seq<Value>)
      requires Valid()
      modifies storage`entries
      ensures Valid()
      ensures calls == Payloads(toRun)
      ensures storage.entries == RemoveAll(old(storage.entries), Keys(toRun))
    {
      ghost var es0 := storage.entries;
      calls := [];
      var i := 0;
      while i < |toRun|
        invariant 0 <= i <= |toRun|
        invariant storage.Valid() && AlarmStore(storage.entries)
        invariant calls == Payloads(toRun[..i])
        invariant storage.entries == RemoveAll(es0, Keys(toRun[..i]))
      {
        var outcome := handler(toRun[i].detail.payload);
        calls := calls + [toRun[i].detail.payload];
        var _ := storage.Delete(toRun[i].key);
        HandlerStep(es0, toRun, i);
        i := i + 1;
      }
      assert toRun[..i] == toRun;
    }

    /**
     * The host's alarm callback at time `now`: runs the handler on each due
     * alarm's payload in due order, deletes each alarm after its run whether
     * or not the handler threw, then resets the wake time. `calls` lists the
     * payloads the handler saw.
     */
    method AlarmHandler(now: int, rand: nat) returns (r: Result<seq<Value>, AlarmError>)
      requires Valid() && rand < Ulid.Pow32(Ulid.RandomLen)
      modifies storage
      ensures Valid()
      ensures r.Failure? <==> !(0 <= now + 1 <= Ulid.TimeMax)
      ensures r.Failure? ==> storage.entries == old(storage.entries) && storage.alarm == old(storage.alarm)
      ensures r.Success? ==>
        && r.value == Payloads(Due(old(storage.entries), now, rand))
        && storage.entries == RemoveAll(old(storage.entries), Keys(Due(old(storage.entries), now, rand)))
        && storage.alarm == WakeAfter(storage.entries, old(storage.alarm))
    {
      var end := Ulid.Generate(now + 1, rand);
      if end.None? {
        return Failure(TimeOutOfRange(now + 1));
      }
      var toRun := ListAlarms(DueCfg(now, rand));
      var calls := RunAndDelete(toRun);
      SetNextWake();
      r := Success(calls);
    }
  }
}
