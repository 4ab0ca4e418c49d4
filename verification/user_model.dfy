/** The user document: its schema constraints and the daily-quota state
    machine of `checkDailyLimit` and `incrementUsage`. Time is a timestamp
    in milliseconds passed in by the caller; a calendar day is a whole
    multiple of 86400000 ms. Password hashing and persistence are not part
    of this model. */
module UserModel {
  import opened Wrappers
  import opened Text
  import opened Validators
  import opened Validation

  /** Uses of each action a "start" user gets per day. */
  const DailyQuota: nat := 3

  const DayLength: nat := 86400000

  /** The calendar day of a timestamp (`toDateString`, in UTC). */
  function Day(t: nat): nat { t / DayLength }

  /** `dailyUsage`: a counter per action and the time of the last reset. */
  datatype DailyUsage = DailyUsage(counters: map<string, nat>, lastReset: nat)

  /** `this.dailyUsage[action] || 0` */
  function Used(u: DailyUsage, action: string): nat {
    if action in u.counters then u.counters[action] else 0
  }

  /** The reset value: the four counters at zero, `lastReset := now`. */
  function FreshUsage(now: nat): (u: DailyUsage)
    ensures u.lastReset == now
    ensures forall action :: Used(u, action) == 0
  {
    DailyUsage(map["spellCheck" := 0, "correctText" := 0, "transliterate" := 0, "documentGenerator" := 0], now)
  }

  /** The reset both methods perform first: on a day other than the last
      reset's, every counter goes back to zero. */
  function Refreshed(u: DailyUsage, now: nat): (r: DailyUsage)
    ensures Day(r.lastReset) == Day(now)
    ensures Day(now) == Day(u.lastReset) ==> r == u
    ensures Day(now) != Day(u.lastReset) ==> r.lastReset == now && forall action :: Used(r, action) == 0
  {
    if Day(now) != Day(u.lastReset) then FreshUsage(now) else u
  }

  /** `this.dailyUsage[action] = (this.dailyUsage[action] || 0) + 1` */
  function Incremented(u: DailyUsage, action: string): (r: DailyUsage)
    ensures Used(r, action) == Used(u, action) + 1
    ensures forall other :: other != action ==> Used(r, other) == Used(u, other)
    ensures r.lastReset == u.lastReset
  {
    DailyUsage(u.counters[action := Used(u, action) + 1], u.lastReset)
  }

  /** A "pro" plan whose expiry lies after `now`. A missing expiry (`null`)
      compares as 0, so it is never after `now`. */
  predicate ProActive(plan: string, planExpiry: Option<nat>, now: nat) {
    plan == "pro" && planExpiry.Some? && planExpiry.value > now
  }

  /** The answer `checkDailyLimit` gives once the counters are refreshed. */
  predicate LimitAllows(plan: string, planExpiry: Option<nat>, u: DailyUsage, action: string, now: nat) {
    ProActive(plan, planExpiry, now) || Used(u, action) < DailyQuota
  }

  /** A reset is only ever done once per day: refreshing again at the same
      time changes nothing. */
  lemma {:induction false} RefreshedIdempotent(u: DailyUsage, now: nat)
    ensures Refreshed(Refreshed(u, now), now) == Refreshed(u, now)
  {
  }

  /** `incrementUsage` called at each of the times in `times`, in order. */
  function AfterIncrements(u: DailyUsage, action: string, times: seq<nat>): DailyUsage
  {
    if times == [] then u
    else Incremented(Refreshed(AfterIncrements(u, action, times[..|times| - 1]), times[|times| - 1]), action)
  }

  predicate AllOnDay(times: seq<nat>, day: nat) {
    forall i :: 0 <= i < |times| ==> Day(times[i]) == day
  }

  /** On a new day, after `n` uses recorded that same day, the action's
      counter is `n` and the reset happened on that day. */
  lemma {:induction false} CountsToday(u: DailyUsage, action: string, times: seq<nat>, day: nat)
    requires Day(u.lastReset) != day
    requires |times| > 0 && AllOnDay(times, day)
    ensures Used(AfterIncrements(u, action, times), action) == |times|
    ensures Day(AfterIncrements(u, action, times).lastReset) == day
  {
    var init := times[..|times| - 1];
    if init != [] {
      CountsToday(u, action, init, day);
    }
  }

  /** The daily quota: a "start" user who has used an action `n` times today
      (since the first use of the day) may use it again exactly when `n < 3`. */
  lemma {:induction false} ThreeUsesPerDay(plan: string, planExpiry: Option<nat>, u: DailyUsage, action: string,
                        times: seq<nat>, now: nat)
    requires !ProActive(plan, planExpiry, now)
    requires Day(u.lastReset) != Day(now)
    requires AllOnDay(times, Day(now))
    ensures var v := Refreshed(AfterIncrements(u, action, times), now);
      LimitAllows(plan, planExpiry, v, action, now) <==> |times| < DailyQuota
  {
    if times != [] {
      CountsToday(u, action, times, Day(now));
    }
  }

  /** A query that still writes: on a new day, even `checkDailyLimit`
      replaces the stored counters. */
  lemma {:induction false} CheckResetsOnNewDay()
    ensures var u := DailyUsage(map["spellCheck" := 2], 0);
      Refreshed(u, DayLength) != u && Used(Refreshed(u, DayLength), "spellCheck") == 0
  {
  }

  // ---------------------------------------------------------------------
  // Schema

  const Plans: seq<string> := ["start", "pro"]

  /** The schema's constraints on the stored fields: names required (so not
      empty) and at most 50 characters once trimmed, the phone pattern, a
      password of at least six characters and a known plan. */
  predicate SchemaValid(firstName: string, lastName: string, phoneNumber: string, password: string, plan: string) {
    && Trim(firstName) != [] && |Trim(firstName)| <= 50
    && Trim(lastName) != [] && |Trim(lastName)| <= 50
    && PhonePattern(phoneNumber)
    && password != [] && |password| >= 6
    && plan in Plans
  }

  /** A sign-up that passes request validation gives a document the schema
      accepts (with the default plan). */
  lemma {:induction false} SignupSatisfiesSchema(firstName: Option<string>, lastName: Option<string>, phoneNumber: Option<string>,
                              password: Option<string>, confirmPassword: Option<string>)
    requires SignupMessages(firstName, lastName, phoneNumber, password, confirmPassword) == []
    ensures SchemaValid(FieldString(firstName), FieldString(lastName), FieldString(phoneNumber),
                        FieldString(password), "start")
  {
    SignupAccepts(firstName, lastName, phoneNumber, password, confirmPassword);
    PasswordAccepts(password);
    NameLength(firstName);
    NameLength(lastName);
    assert IsLength(FieldString(password)) <= |FieldString(password)|;
  }

  /** A user document. */
  class User {
    var firstName: string
    var lastName: string
    var phoneNumber: string
    var password: string
    var plan: string
    var planExpiry: Option<nat>
    var dailyUsage: DailyUsage
    var isActive: bool

    /** A new document with the schema defaults: names trimmed, plan
        "start" without expiry, zero counters reset `now`, active. */
    constructor (firstName: string, lastName: string, phoneNumber: string, password: string, now: nat)
      ensures this.firstName == Trim(firstName) && this.lastName == Trim(lastName)
      ensures this.phoneNumber == phoneNumber && this.password == password
      ensures plan == "start" && planExpiry == None && isActive
      ensures dailyUsage == FreshUsage(now)
    {
      this.firstName := Trim(firstName);
      this.lastName := Trim(lastName);
      this.phoneNumber := phoneNumber;
      this.password := password;
      plan := "start";
      planExpiry := None;
      dailyUsage := FreshUsage(now);
      isActive := true;
    }

    /** `checkDailyLimit(action)` at time `now`: refresh the counters, then
        allow a "pro" user with a future expiry, or anyone under the quota. */
    method CheckDailyLimit(action: string, now: nat) returns (allowed: bool)
      modifies this`dailyUsage
      ensures dailyUsage == Refreshed(old(dailyUsage), now)
      ensures allowed == LimitAllows(plan, planExpiry, dailyUsage, action, now)
    {
      if Day(now) != Day(dailyUsage.lastReset) {
        dailyUsage := FreshUsage(now);
      }
      if plan == "pro" && planExpiry.Some? && planExpiry.value > now {
        return true;
      }
      var currentUsage := if action in dailyUsage.counters then dailyUsage.counters[action] else 0;
      allowed := currentUsage < DailyQuota;
    }

    /** `incrementUsage(action)` at time `now`: refresh the counters, then
        add one to the action's counter and to no other. */
    method IncrementUsage(action: string, now: nat)
      modifies this`dailyUsage
      ensures dailyUsage == Incremented(Refreshed(old(dailyUsage), now), action)
    {
      if Day(now) != Day(dailyUsage.lastReset) {
        dailyUsage := FreshUsage(now);
      }
      var current := if action in dailyUsage.counters then dailyUsage.counters[action] else 0;
      dailyUsage := dailyUsage.(counters := dailyUsage.counters[action := current + 1]);
    }
  }
}
