/** Scheduling predicates of the ingest update command: which providers are
    due, how long an update task may wait in the queue, whether a provider
    has gone quiet, and the task id of a provider update. */
module IngestProvider {
  import opened Base

  /** Keyword arguments of a `timedelta`; a missing key counts as 0. */
  datatype Schedule = Schedule(days: int, hours: int, minutes: int, seconds: int)

  /** UPDATE_SCHEDULE_DEFAULT: five minutes. */
  const UpdateScheduleDefault := Schedule(0, 0, 5, 0)

  /** An `idle_time` component is either a number or, in stored data, a
      datetime, which the source treats as 0. */
  datatype IdleValue = Amount(n: int) | Stamp(t: int)

  /** `idle_time`: its `hours` and `minutes` keys may be missing. */
  datatype IdleTime = IdleTime(hours: Option<IdleValue>, minutes: Option<IdleValue>)

  /** IDLE_TIME_DEFAULT: zero hours and zero minutes. */
  const IdleTimeDefault := IdleTime(Some(Amount(0)), Some(Amount(0)))

  const Day := 86400

  /** The ingest provider record, as far as the ingest helpers read it.
      Times are in seconds. */
  datatype Provider = Provider(
    name: Option<string>,
    id: Option<string>,
    feedingService: Option<string>,
    feedParser: Option<string>,
    isClosed: Option<bool>,
    lastUpdated: Option<int>,
    updateSchedule: Option<Schedule>,
    lastItemUpdate: Option<int>,
    idleTime: Option<IdleTime>,
    contentExpiry: Option<int>,
    contentTypes: Option<seq<string>>,
    ruleSet: Option<string>)

  /** `a and b or c` groups as `(a and b) or c`: with a parser configured the
      feeding service is not consulted at all; without one the service alone
      decides. */
  predicate ServiceAndParserRegistered(p: Provider, services: set<string>, parsers: set<string>)
    ensures p.feedParser.None? ==>
      (ServiceAndParserRegistered(p, services, parsers) <==> p.feedingService.Some? && p.feedingService.value in services)
    ensures p.feedParser.Some? ==>
      (ServiceAndParserRegistered(p, services, parsers) <==> p.feedParser.value in parsers)
  {
    || (p.feedingService.Some? && p.feedingService.value in services && p.feedParser.None?)
    || (p.feedParser.Some? && p.feedParser.value in parsers)
  }

  /** What the documentation of the check promises: both the feeding service
      and the feed parser are registered, the parser being optional. */
  predicate BothRegistered(p: Provider, services: set<string>, parsers: set<string>) {
    && p.feedingService.Some? && p.feedingService.value in services
    && (p.feedParser.None? || p.feedParser.value in parsers)
  }

  /** The intended check is the check as written plus a registered feeding
      service: it never admits a provider the code refuses, and refuses
      exactly the admitted providers whose service is not registered. */
  lemma BothRegisteredSpec(p: Provider, services: set<string>, parsers: set<string>)
    ensures BothRegistered(p, services, parsers) <==>
      ServiceAndParserRegistered(p, services, parsers) && p.feedingService.Some? && p.feedingService.value in services
  {
  }

  /** As written, a registered parser admits a provider whose feeding service
      is not registered. */
  lemma ParserAloneAdmits()
    ensures var p := Provider(None, None, Some("ftp"), Some("nitf"), None, None, None, None, None, None, None, None);
      ServiceAndParserRegistered(p, {"rss"}, {"nitf"}) && !BothRegistered(p, {"rss"}, {"nitf"})
  {
  }

  /** Length of a `timedelta(**schedule)` in seconds. */
  function Duration(s: Schedule): int {
    s.days * Day + s.hours * 3600 + s.minutes * 60 + s.seconds
  }

  /** `is_scheduled`: the last update plus the schedule lies before `now`;
      a provider never updated counts as updated 100 days ago, so it is due
      exactly when its schedule is shorter than 100 days. */
  predicate IsScheduled(p: Provider, now: int)
    ensures p.lastUpdated.None? ==>
      (IsScheduled(p, now) <==> Duration(p.updateSchedule.GetOr(UpdateScheduleDefault)) < 100 * Day)
  {
    var lastUpdated := p.lastUpdated.GetOr(now - 100 * Day);
    lastUpdated + Duration(p.updateSchedule.GetOr(UpdateScheduleDefault)) < now
  }

  /** Once due, a provider that has been updated stays due as time passes. */
  lemma IsScheduledMonotone(p: Provider, now: int, later: int)
    requires now <= later && IsScheduled(p, now)
    ensures IsScheduled(p, later)
  {
  }

  predicate IsClosed(p: Provider) {
    p.isClosed.GetOr(false)
  }

  /** The guard of the update command: open, registered and due. */
  predicate ShouldUpdate(p: Provider, now: int, services: set<string>, parsers: set<string>)
    ensures ShouldUpdate(p, now, services, parsers) <==>
      && p.isClosed != Some(true)
      && ServiceAndParserRegistered(p, services, parsers)
      && (p.lastUpdated.Some? ==> p.lastUpdated.value + Duration(p.updateSchedule.GetOr(UpdateScheduleDefault)) < now)
      && (p.lastUpdated.None? ==> Duration(p.updateSchedule.GetOr(UpdateScheduleDefault)) < 100 * Day)
  {
    !IsClosed(p) && ServiceAndParserRegistered(p, services, parsers) && IsScheduled(p, now)
  }

  /** "If never updated run now": an open, registered provider that was never
      updated and keeps the default schedule is updated on every run. */
  lemma NeverUpdatedRunsNow(p: Provider, now: int, services: set<string>, parsers: set<string>)
    requires p.isClosed != Some(true) && ServiceAndParserRegistered(p, services, parsers)
    requires p.lastUpdated.None? && p.updateSchedule.None?
    ensures ShouldUpdate(p, now, services, parsers)
  {
  }

  /** `get_task_ttl`: minutes, hours and seconds of the schedule (days are
      not counted), never below 15 seconds. */
  function GetTaskTtl(p: Provider): (ttl: int)
    ensures ttl >= 15
    ensures var s := p.updateSchedule.GetOr(UpdateScheduleDefault);
      var raw := s.minutes * 60 + s.hours * 3600 + s.seconds;
      (raw >= 15 ==> ttl == raw) && (raw < 15 ==> ttl == 15)
  {
    var s := p.updateSchedule.GetOr(UpdateScheduleDefault);
    var ttl := s.minutes * 60 + s.hours * 3600 + s.seconds;
    if ttl < 15 then 15 else ttl
  }

  /** With the default schedule a task may wait five minutes. */
  lemma DefaultTaskTtl(p: Provider)
    requires p.updateSchedule.None?
    ensures GetTaskTtl(p) == 300
  {
  }

  datatype IdleError = MissingIdleKey

  function IdleAmount(v: IdleValue): int {
    match v
    case Amount(n) => n
    case Stamp(_) => 0
  }

  /** `get_is_idle`: a provider is idle when it has delivered items before, its
      idle time is not zero and that much time has passed since the last item.
      An `idle_time` without `hours` or `minutes` raises. */
  function GetIsIdle(p: Provider, now: int): (r: Result<bool, IdleError>)
    ensures var idle := p.idleTime.GetOr(IdleTimeDefault);
      r.Err? <==> idle.hours.None? || idle.minutes.None?
    ensures r.Ok? ==>
      var idle := p.idleTime.GetOr(IdleTimeDefault);
      (r.value <==>
        && p.lastItemUpdate.Some?
        && (IdleAmount(idle.hours.value) != 0 || IdleAmount(idle.minutes.value) != 0)
        && now > p.lastItemUpdate.value + IdleAmount(idle.hours.value) * 3600 + IdleAmount(idle.minutes.value) * 60)
  {
    var idle := p.idleTime.GetOr(IdleTimeDefault);
    if idle.hours.None? || idle.minutes.None? then Err(MissingIdleKey)
    else
      var hours := IdleAmount(idle.hours.value);
      var minutes := IdleAmount(idle.minutes.value);
      if p.lastItemUpdate.Some? && (hours != 0 || minutes != 0) then
        Ok(now > p.lastItemUpdate.value + hours * 3600 + minutes * 60)
      else Ok(false)
  }

  /** A provider with the default (zero) idle time is never reported idle. */
  lemma NeverIdleByDefault(p: Provider, now: int)
    requires p.idleTime.None?
    ensures GetIsIdle(p, now) == Ok(false)
  {
  }

  /** Once idle, a provider stays idle until a new item arrives. */
  lemma IdleMonotone(p: Provider, now: int, later: int)
    requires now <= later && GetIsIdle(p, now) == Ok(true)
    ensures GetIsIdle(p, later) == Ok(true)
  {
  }

  /** `get_task_id`: "update-ingest-<name>-<_id>". */
  function GetTaskId(p: Provider): (id: string)
    ensures "update-ingest-" <= id
  {
    "update-ingest-" + Show(p.name) + "-" + Show(p.id)
  }

  /** Two providers of the same name get the same task id exactly when their
      ids print the same. */
  lemma TaskIdSeparatesProviders(p1: Provider, p2: Provider)
    requires p1.name == p2.name
    ensures GetTaskId(p1) == GetTaskId(p2) <==> Show(p1.id) == Show(p2.id)
  {
    var prefix := "update-ingest-" + Show(p1.name) + "-";
    assert GetTaskId(p1) == prefix + Show(p1.id);
    assert GetTaskId(p2) == prefix + Show(p2.id);
    if GetTaskId(p1) == GetTaskId(p2) {
      assert Show(p1.id) == GetTaskId(p1)[|prefix|..];
      assert Show(p2.id) == GetTaskId(p2)[|prefix|..];
    }
  }
}
