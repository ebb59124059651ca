/** The SMS provider: a sliding window per number, checked before and recorded after the message is sent. */
module SmsProvider {
  import opened Common
  import Slug

  const MAX_SMS_LENGTH := 160
  const WINDOW := 60000
  const MAX_MESSAGES := 5

  datatype SendError = InvalidNumber | OptedOut | InvalidMessage | RateLimited

  /** The sends that are less than a minute old. */
  function Recent(sends: seq<Time>, now: Time): seq<Time> {
    if sends == [] then []
    else if now - sends[0] < WINDOW then [sends[0]] + Recent(sends[1..], now)
    else Recent(sends[1..], now)
  }

  // ---- One number ----

  /** The recorded sends that the provider still keeps, and the sends that were let through but are not
      recorded yet. `log` is every send ever recorded. */
  datatype Line = Line(sends: seq<Time>, inFlight: nat, log: seq<Time>)

  datatype Event = Check(time: Time) | Record(time: Time)

  function Next(l: Line, e: Event): Line {
    match e
    case Check(now) =>
      var recent := Recent(l.sends, now);
      l.(sends := recent, inFlight := if |recent| < MAX_MESSAGES then l.inFlight + 1 else l.inFlight)
    case Record(now) =>
      Line(l.sends + [now], if l.inFlight > 0 then l.inFlight - 1 else 0, l.log + [now])
  }

  function Run(l: Line, events: seq<Event>): Line
    decreases events
  {
    if events == [] then l else Run(Next(l, events[0]), events[1..])
  }

  /** Events happen in time order from `now` on, only sends that were let through are recorded, and no more
      than k are in flight at once. */
  predicate Feasible(l: Line, now: Time, events: seq<Event>, k: nat)
    decreases events
  {
    && l.inFlight <= k
    && (events != [] ==>
          && now <= events[0].time && (events[0].Record? ==> l.inFlight > 0)
          && Feasible(Next(l, events[0]), events[0].time, events[1..], k))
  }

  /** The sends recorded in the minute that starts at `start`. */
  function Within(log: seq<Time>, start: Time): nat {
    if log == [] then 0
    else Within(log[..|log| - 1], start) + if start <= log[|log| - 1] < start + WINDOW then 1 else 0
  }

  /** Forgetting old sends does not change what counts as recent, now or later. */
  ghost predicate Faithful(l: Line, now: Time) {
    && (forall later :: later >= now ==> Recent(l.sends, later) == Recent(l.log, later))
    && forall i :: 0 <= i < |l.log| ==> l.log[i] <= now
  }

  lemma {:induction false} RecentAdds(sends: seq<Time>, more: seq<Time>, now: Time)
    ensures Recent(sends + more, now) == Recent(sends, now) + Recent(more, now)
  {
    if sends == [] {
      assert sends + more == more;
    } else {
      var tail := sends[1..];
      RecentAdds(tail, more, now);
      assert (sends + more)[0] == sends[0] && (sends + more)[1..] == tail + more;
      assert [sends[0]] + (Recent(tail, now) + Recent(more, now)) == ([sends[0]] + Recent(tail, now)) + Recent(more, now);
    }
  }

  lemma {:induction false} RecentOfRecent(sends: seq<Time>, now: Time, later: Time)
    requires now <= later
    ensures Recent(Recent(sends, now), later) == Recent(sends, later)
  {
    if sends != [] {
      RecentOfRecent(sends[1..], now, later);
      RecentAdds([sends[0]], Recent(sends[1..], now), later);
    }
  }

  lemma StepKeepsFaithful(l: Line, now: Time, e: Event)
    requires Faithful(l, now) && now <= e.time
    ensures Faithful(Next(l, e), e.time)
  {
    forall later | later >= e.time
      ensures Recent(Next(l, e).sends, later) == Recent(Next(l, e).log, later)
    {
      if e.Check? {
        RecentOfRecent(l.sends, e.time, later);
      } else {
        RecentAdds(l.sends, [e.time], later);
        RecentAdds(l.log, [e.time], later);
      }
    }
  }

  /** Everything recorded since `start` is still recent within the minute. */
  lemma {:induction false} WithinIsRecent(log: seq<Time>, start: Time, now: Time)
    requires start <= now < start + WINDOW
    ensures Within(log, start) <= |Recent(log, now)|
  {
    if log != [] {
      var front, last := log[..|log| - 1], log[|log| - 1];
      WithinIsRecent(front, start, now);
      assert log == front + [last];
      RecentAdds(front, [last], now);
    }
  }

  lemma {:induction false} NothingBefore(log: seq<Time>, start: Time)
    requires forall i :: 0 <= i < |log| ==> log[i] < start
    ensures Within(log, start) == 0
  {
    if log != [] {
      NothingBefore(log[..|log| - 1], start);
    }
  }

  /** What is recorded and in flight since `start`, while the minute lasts; afterwards what was recorded. */
  predicate WithinBudget(l: Line, now: Time, start: Time, k: nat) {
    && Within(l.log, start) <= MAX_MESSAGES - 1 + k
    && (now < start + WINDOW ==> Within(l.log, start) + l.inFlight <= MAX_MESSAGES - 1 + k)
  }

  lemma StepKeepsBudget(l: Line, now: Time, e: Event, start: Time, k: nat)
    requires Faithful(l, now) && now <= e.time && WithinBudget(l, now, start, k)
    requires l.inFlight <= k && Next(l, e).inFlight <= k && (e.Record? ==> l.inFlight > 0)
    ensures WithinBudget(Next(l, e), e.time, start, k)
  {
    if e.Record? {
      assert (l.log + [e.time])[..|l.log|] == l.log;
    } else if e.time < start {
      NothingBefore(l.log, start);
    } else if e.time < start + WINDOW {
      WithinIsRecent(l.log, start, e.time);
    }
  }

  lemma {:induction false} WindowBoundFrom(l: Line, now: Time, events: seq<Event>, start: Time, k: nat)
    requires Faithful(l, now) && Feasible(l, now, events, k) && WithinBudget(l, now, start, k)
    ensures Within(Run(l, events).log, start) <= MAX_MESSAGES - 1 + k
    decreases events
  {
    if events != [] {
      StepKeepsFaithful(l, now, events[0]);
      StepKeepsBudget(l, now, events[0], start, k);
      WindowBoundFrom(Next(l, events[0]), events[0].time, events[1..], start, k);
    }
  }

  /** With at most k sends to a number in flight at once, at most 4 + k are recorded in any minute. */
  lemma WindowBound(events: seq<Event>, now: Time, start: Time, k: nat)
    requires Feasible(Line([], 0, []), now, events, k)
    ensures Within(Run(Line([], 0, []), events).log, start) <= 4 + k
  {
    WindowBoundFrom(Line([], 0, []), now, events, start, k);
  }

  // ---- Exactly when a send is let through ----

  /** The indices of the sends recorded less than a minute before. */
  function Young(log: seq<Time>, now: Time): set<nat> {
    set i | 0 <= i < |log| && now - log[i] < 60_000
  }

  lemma {:induction false} RecentCountsYoung(log: seq<Time>, now: Time)
    ensures |Recent(log, now)| == |Young(log, now)|
  {
    if log != [] {
      var n := |log| - 1;
      RecentCountsYoung(log[..n], now);
      assert log == log[..n] + [log[n]];
      RecentAdds(log[..n], [log[n]], now);
      assert n !in Young(log[..n], now);
      assert Young(log, now) == Young(log[..n], now) + if now - log[n] < 60_000 then {n} else {};
    }
  }

  /** When the last of the events happens. */
  function LastTime(from: Time, events: seq<Event>): Time
    decreases events
  {
    if events == [] then from else LastTime(events[0].time, events[1..])
  }

  lemma {:induction false} RunFaithful(l: Line, from: Time, events: seq<Event>, k: nat)
    requires Faithful(l, from) && Feasible(l, from, events, k)
    ensures Faithful(Run(l, events), LastTime(from, events))
    decreases events
  {
    if events != [] {
      StepKeepsFaithful(l, from, events[0]);
      RunFaithful(Next(l, events[0]), events[0].time, events[1..], k);
    }
  }

  /** After every run a check lets a send through exactly if fewer than five sends have been recorded in the
      minute before it, whatever has been forgotten in between; so one to a number with no record in the last
      minute always. */
  lemma {:induction false} CheckExactly(events: seq<Event>, from: Time, k: nat, now: Time)
    requires Feasible(Line([], 0, []), from, events, k) && LastTime(from, events) <= now
    ensures var l := Run(Line([], 0, []), events);
            var checked := Next(l, Check(now));
            && checked.inFlight == (if |Young(l.log, now)| < 5 then l.inFlight + 1 else l.inFlight)
            && checked.log == l.log
            && ((forall i :: 0 <= i < |l.log| ==> now - l.log[i] >= 60_000) ==> checked.inFlight == l.inFlight + 1)
  {
    var l := Run(Line([], 0, []), events);
    RunFaithful(Line([], 0, []), from, events, k);
    RecentCountsYoung(l.log, now);
    if forall i :: 0 <= i < |l.log| ==> now - l.log[i] >= 60_000 {
      assert Young(l.log, now) == {};
    }
  }

  /** The log is the times of the recorded sends, in order. */
  function RecordTimes(events: seq<Event>): seq<Time> {
    if events == [] then []
    else (if events[0].Record? then [events[0].time] else []) + RecordTimes(events[1..])
  }

  lemma {:induction false} LogIsRecords(l: Line, events: seq<Event>)
    ensures Run(l, events).log == l.log + RecordTimes(events)
    decreases events
  {
    if events != [] {
      LogIsRecords(Next(l, events[0]), events[1..]);
    }
  }

  // ---- The bound is reached ----

  function Checks(n: nat, time: Time): seq<Event> {
    seq(n, _ => Check(time))
  }

  function Records(n: nat, time: Time): seq<Event> {
    seq(n, _ => Record(time))
  }

  function Times(n: nat, time: Time): seq<Time> {
    seq(n, _ => time)
  }

  const FOUR := [50, 150, 250, 350]

  function Burst(k: nat): seq<Event> {
    Checks(k, 400) + Records(k, 500)
  }

  lemma {:induction false} RecordsRun(n: nat, l: Line, now: Time, time: Time, k: nat)
    requires l.inFlight == n <= k && now <= time
    ensures Feasible(l, now, Records(n, time), k)
    ensures Run(l, Records(n, time)) == Line(l.sends + Times(n, time), 0, l.log + Times(n, time))
    decreases n
  {
    var events := Records(n, time);
    if n > 0 {
      assert events[1..] == Records(n - 1, time);
      RecordsRun(n - 1, Next(l, events[0]), time, time, k);
      assert [time] + Times(n - 1, time) == Times(n, time);
      assert l.sends + [time] + Times(n - 1, time) == l.sends + Times(n, time);
      assert l.log + [time] + Times(n - 1, time) == l.log + Times(n, time);
    }
  }

  lemma {:induction false} BurstRuns(n: nat, k: nat, now: Time)
    requires n <= k && now <= 400
    ensures var l := Line(FOUR, k - n, FOUR);
            Feasible(l, now, Checks(n, 400) + Records(k, 500), k)
            && Run(l, Checks(n, 400) + Records(k, 500)).log == FOUR + Times(k, 500)
    decreases n
  {
    var l, events := Line(FOUR, k - n, FOUR), Checks(n, 400) + Records(k, 500);
    if n == 0 {
      assert events == Records(k, 500);
      RecordsRun(k, l, now, 500, k);
    } else {
      assert events[1..] == Checks(n - 1, 400) + Records(k, 500);
      assert Recent(FOUR, 400) == FOUR;
      BurstRuns(n - 1, k, 400);
    }
  }

  lemma {:induction false} TimesWithin(n: nat)
    ensures Within(FOUR + Times(n, 500), 0) == 4 + n
  {
    var log := FOUR + Times(n, 500);
    if n == 0 {
      assert log == [50, 150, 250, 350] && log[..3] == [50, 150, 250];
      assert [50, 150, 250][..2] == [50, 150] && [50, 150][..1] == [50] && [50][..0] == [];
      assert Within([50, 150], 0) == 2;
    } else {
      assert log[..|log| - 1] == FOUR + Times(n - 1, 500);
      TimesWithin(n - 1);
    }
  }

  /** The shortest time between check and record. */
  const DELAY := 50

  /** One send that is let through and recorded when it has gone out. */
  function Send(time: Time): seq<Event> {
    [Check(time), Record(time + DELAY)]
  }

  lemma SendRuns(l: Line, now: Time, time: Time, rest: seq<Event>, k: nat)
    requires l.inFlight == 0 && k >= 1 && now <= time && |l.sends| < MAX_MESSAGES && Recent(l.sends, time) == l.sends
    requires Feasible(Line(l.sends + [time + DELAY], 0, l.log + [time + DELAY]), time + DELAY, rest, k)
    ensures Feasible(l, now, Send(time) + rest, k)
    ensures Run(l, Send(time) + rest) == Run(Line(l.sends + [time + DELAY], 0, l.log + [time + DELAY]), rest)
  {
    var events := Send(time) + rest;
    assert events[1..] == [Record(time + DELAY)] + rest && events[1..][1..] == rest;
    var checked := Next(l, events[0]);
    assert checked == l.(inFlight := 1);
    assert Next(checked, Record(time + DELAY)) == Line(l.sends + [time + DELAY], 0, l.log + [time + DELAY]);
  }

  /** Four sends one after the other, then k checks before the first of k records. */
  function Crowd(k: nat): seq<Event> {
    Send(0) + (Send(100) + (Send(200) + (Send(300) + Burst(k))))
  }

  /** The second half of the crowd: two sends, and the burst. */
  lemma HalfCrowd(k: nat)
    requires k >= 1
    ensures var events := Send(200) + (Send(300) + Burst(k));
            && Feasible(Line([50, 150], 0, [50, 150]), 150, events, k)
            && Run(Line([50, 150], 0, [50, 150]), events).log == FOUR + Times(k, 500)
  {
    BurstRuns(k, k, 350);
    assert [50, 150, 250] + [350] == FOUR && [50, 150] + [250] == [50, 150, 250];
    SendRuns(Line([50, 150, 250], 0, [50, 150, 250]), 250, 300, Burst(k), k);
    SendRuns(Line([50, 150], 0, [50, 150]), 150, 200, Send(300) + Burst(k), k);
  }

  /** The bound is reached from the start, whatever k is, as long as anything is sent at all. */
  lemma WindowBoundReached(k: nat)
    requires k >= 1
    ensures Feasible(Line([], 0, []), 0, Crowd(k), k)
    ensures Within(Run(Line([], 0, []), Crowd(k)).log, 0) == 4 + k
  {
    TimesWithin(k);
    HalfCrowd(k);
    var rest := Send(200) + (Send(300) + Burst(k));
    assert [50] + [150] == [50, 150] && [] + [50] == [50];
    SendRuns(Line([50], 0, [50]), 50, 100, rest, k);
    SendRuns(Line([], 0, []), 0, 0, Send(100) + rest, k);
  }

  // ---- The provider ----

  predicate Digit(c: char) {
    '0' <= c <= '9'
  }

  predicate Blank(s: string) {
    forall i :: 0 <= i < |s| ==> Slug.Space(s[i])
  }

  /** A plus sign and seven to fifteen digits. */
  predicate ValidNumber(to: string) {
    8 <= |to| <= 16 && to[0] == '+' && forall i :: 1 <= i < |to| ==> Digit(to[i])
  }

  predicate ValidMessage(subject: string, content: string) {
    !Blank(subject) && !Blank(content) && |content| <= MAX_SMS_LENGTH
  }

  /** A message needs something to read in subject and content, and no more than 160 characters. */
  lemma ValidMessageExactly(subject: string, content: string)
    ensures ValidMessage(subject, content) <==>
              && (exists i :: 0 <= i < |subject| && !Slug.Space(subject[i]))
              && (exists i :: 0 <= i < |content| && !Slug.Space(content[i]))
              && |content| <= 160
  {
  }

  class SMSProvider {
    var rateLimits: map<string, seq<Time>>
    var optedOutNumbers: set<string>

    constructor ()
      ensures rateLimits == map[] && optedOutNumbers == {}
    {
      rateLimits, optedOutNumbers := map[], {};
    }

    function SendsTo(number: string): seq<Time>
      reads this
    {
      if number in rateLimits then rateLimits[number] else []
    }

    method ValidatePhoneNumber(phoneNumber: string) returns (valid: bool)
      ensures valid <==> ValidNumber(phoneNumber)
    {
      assert |phoneNumber| > 0 && phoneNumber[0] == '+' ==> !Slug.Space(phoneNumber[0]);
      if phoneNumber == "" || Blank(phoneNumber) {
        return false;
      }
      if phoneNumber[0] != '+' {
        return false;
      }
      var digits := phoneNumber[1..];
      if digits == "" || exists i :: 0 <= i < |digits| && !Digit(digits[i]) {
        return false;
      }
      return 7 <= |digits| <= 15;
    }

    method CheckRateLimit(phoneNumber: string, now: Time) returns (under: bool)
      modifies `rateLimits
      ensures rateLimits == old(rateLimits)[phoneNumber := Recent(old(SendsTo(phoneNumber)), now)]
      ensures under <==> |Young(old(SendsTo(phoneNumber)), now)| < 5
    {
      RecentCountsYoung(SendsTo(phoneNumber), now);
      var recentSends := Recent(SendsTo(phoneNumber), now);
      rateLimits := rateLimits[phoneNumber := recentSends];
      return |recentSends| < MAX_MESSAGES;
    }

    /** The part of `send` before the message goes out. */
    method Begin(to: string, subject: string, content: string, now: Time) returns (error: Option<SendError>)
      modifies `rateLimits
      ensures error == if !ValidNumber(to) then Some(InvalidNumber)
                       else if to in optedOutNumbers then Some(OptedOut)
                       else if !ValidMessage(subject, content) then Some(InvalidMessage)
                       else if |Young(old(SendsTo(to)), now)| >= 5 then Some(RateLimited)
                       else None
      ensures error == None || error == Some(RateLimited) ==> SendsTo(to) == Recent(old(SendsTo(to)), now)
      ensures error != None && error != Some(RateLimited) ==> rateLimits == old(rateLimits)
      ensures forall other :: other != to ==> SendsTo(other) == old(SendsTo(other))
    {
      var valid := ValidatePhoneNumber(to);
      if !valid {
        return Some(InvalidNumber);
      }
      if to in optedOutNumbers {
        return Some(OptedOut);
      }
      if !ValidMessage(subject, content) {
        return Some(InvalidMessage);
      }
      var under := CheckRateLimit(to, now);
      if !under {
        return Some(RateLimited);
      }
      return None;
    }

    /** The part of `send` after the message has gone out. */
    method RecordSend(phoneNumber: string, now: Time)
      modifies `rateLimits
      ensures SendsTo(phoneNumber) == old(SendsTo(phoneNumber)) + [now]
      ensures forall other :: other != phoneNumber ==> SendsTo(other) == old(SendsTo(other))
    {
      rateLimits := rateLimits[phoneNumber := SendsTo(phoneNumber) + [now]];
    }

    method OptOut(phoneNumber: string)
      modifies `optedOutNumbers
      ensures optedOutNumbers == old(optedOutNumbers) + {phoneNumber}
    {
      optedOutNumbers := optedOutNumbers + {phoneNumber};
    }

    method OptIn(phoneNumber: string)
      modifies `optedOutNumbers
      ensures optedOutNumbers == old(optedOutNumbers) - {phoneNumber}
    {
      optedOutNumbers := optedOutNumbers - {phoneNumber};
    }
  }
}
