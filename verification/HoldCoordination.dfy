/** The Redis keys that keep two processes from working on one hold. */
module HoldCoordination {
  import opened Wrappers

  const DEFAULT_ENVIRONMENT: string := "development"
  const NAMESPACE: string := ":availability:hold:"

  function Environment(environment: string): string {
    if environment == "" then DEFAULT_ENVIRONMENT else environment
  }

  function Prefix(environment: string): string {
    Environment(environment) + NAMESPACE
  }

  function Key(environment: string, holdId: string): string {
    Prefix(environment) + holdId
  }

  /** The key, spelled out; an unnamed environment is `development`. */
  lemma KeyText(environment: string, holdId: string)
    ensures environment != "" ==> Key(environment, holdId) == environment + ":availability:hold:" + holdId
    ensures environment == "" ==> Key(environment, holdId) == "development:availability:hold:" + holdId
  {
    assert DEFAULT_ENVIRONMENT + NAMESPACE == "development:availability:hold:";
  }

  // ---- Keys do not collide ----

  /** Within an environment the key determines the hold. */
  lemma KeyInjective(environment: string, holdId: string, otherId: string)
    requires Key(environment, holdId) == Key(environment, otherId)
    ensures holdId == otherId
  {
    assert Key(environment, holdId)[|Prefix(environment)|..] == holdId;
    assert Key(environment, otherId)[|Prefix(environment)|..] == otherId;
  }

  ghost predicate ShareKey(environment: string, other: string) {
    exists holdId, otherId :: Key(environment, holdId) == Key(other, otherId)
  }

  /** Two environments share a key if and only if the prefix of one continues that of the other, which
      can be checked before either is used. */
  lemma EnvironmentsShareKeys(environment: string, other: string)
    ensures ShareKey(environment, other) <==>
              Prefix(environment) <= Prefix(other) || Prefix(other) <= Prefix(environment)
  {
    var e, f := Prefix(environment), Prefix(other);
    if holdId, otherId :| Key(environment, holdId) == Key(other, otherId) {
      var key := Key(environment, holdId);
      assert e == key[..|e|] && f == key[..|f|];
      assert |e| <= |f| ==> e == f[..|e|];
      assert |f| <= |e| ==> f == e[..|f|];
    }
    if e <= f {
      assert Key(environment, f[|e|..]) == Key(other, "");
    }
    if f <= e {
      assert Key(environment, "") == Key(other, e[|f|..]);
    }
  }

  lemma ColonEnds(e: string, f: string)
    requires ':' !in f && e + NAMESPACE <= f + NAMESPACE
    ensures e == f
  {
    assert (f + NAMESPACE)[|e|] == (e + NAMESPACE)[|e|] == ':';
    assert |e| == |f|;
    assert e == (e + NAMESPACE)[..|e|] == (f + NAMESPACE)[..|e|] == f;
  }

  /** So environments whose names have no colon share no key unless they are the same. */
  lemma KeysApart(environment: string, other: string)
    requires ':' !in environment && ':' !in other
    ensures ShareKey(environment, other) <==> Environment(environment) == Environment(other)
    ensures forall holdId, otherId :: Key(environment, holdId) == Key(other, otherId) ==> holdId == otherId
  {
    EnvironmentsShareKeys(environment, other);
    if Prefix(environment) <= Prefix(other) {
      ColonEnds(Environment(environment), Environment(other));
    } else if Prefix(other) <= Prefix(environment) {
      ColonEnds(Environment(other), Environment(environment));
    }
    forall holdId, otherId | Key(environment, holdId) == Key(other, otherId) ensures holdId == otherId {
      assert ShareKey(environment, other);
      KeyInjective(environment, holdId, otherId);
    }
  }

  /** With colons they may: any name and its continuation by the namespace do. */
  lemma ColonsCollide(first: string, second: string)
    requires first != ""
    ensures ShareKey(first, first + NAMESPACE + second)
  {
    EnvironmentsShareKeys(first, first + NAMESPACE + second);
    assert Prefix(first + NAMESPACE + second) == Prefix(first) + (second + NAMESPACE);
  }

  // ---- The key set ----

  /** Keys with their deadlines; process and server share one clock. A key is gone once the clock has reached
      its deadline. */
  type Keys = map<string, Time>

  predicate Held(keys: Keys, key: string, now: Time) {
    key in keys && now < keys[key]
  }

  datatype AcquireResult = Acquired | ErrExpiryNotInFuture | ErrHoldAlreadyCoordinated | ErrRedis

  class HoldCoordinator {
    const environment: string
    var keys: Keys
    var now: Time

    constructor (environment: string, now: Time)
      ensures this.environment == environment && keys == map[] && this.now == now
    {
      this.environment := environment;
      this.keys, this.now := map[], now;
    }

    method Wait(until: Time)
      requires now <= until
      modifies this`now
      ensures now == until
    {
      now := until;
    }

    /** `reply` says how the SETNX call ends; a lost reply is an error although the key was set. */
    method Acquire(holdId: string, expiresAt: Time, reply: Write) returns (result: AcquireResult)
      modifies this`keys
      ensures (keys, result) == AcquireKey(old(keys), Key(environment, holdId), now, expiresAt, reply)
      ensures result.ErrExpiryNotInFuture? <==> expiresAt <= now
      ensures result.ErrRedis? <==> now < expiresAt && !reply.Written?
      ensures var key := Key(environment, holdId);
              var free := key !in old(keys) || old(keys)[key] <= now;
              && (now < expiresAt && reply.Written? ==> result == if free then Acquired else ErrHoldAlreadyCoordinated)
              && keys == (if now < expiresAt && free && reply.Applied() then old(keys)[key := expiresAt] else old(keys))
      ensures result.Acquired? ==>
                && !Held(old(keys), Key(environment, holdId), now)
                && Held(keys, Key(environment, holdId), now)
                && keys[Key(environment, holdId)] == expiresAt
      ensures forall other :: other != holdId ==>
                (Held(keys, Key(environment, other), now) <==> Held(old(keys), Key(environment, other), now))
    {
      forall other | other != holdId ensures Key(environment, other) != Key(environment, holdId) {
        if Key(environment, other) == Key(environment, holdId) {
          KeyInjective(environment, other, holdId);
        }
      }
      var ttl := expiresAt - now;
      if ttl <= 0 {
        return ErrExpiryNotInFuture;
      }
      var key := Key(environment, holdId);
      var created := !Held(keys, key, now);
      if created && reply.Applied() {
        keys := keys[key := now + ttl];
      }
      if !reply.Written? {
        return ErrRedis;
      }
      result := if created then Acquired else ErrHoldAlreadyCoordinated;
    }

    method Release(holdId: string, reply: Write) returns (ok: bool)
      modifies this`keys
      ensures ok == reply.Written?
      ensures keys == if reply.Applied() then old(keys) - {Key(environment, holdId)} else old(keys)
      ensures ok ==> !Held(keys, Key(environment, holdId), now)
    {
      if reply.Applied() {
        keys := keys - {Key(environment, holdId)};
      }
      ok := reply.Written?;
    }
  }

  function AcquireKey(keys: Keys, key: string, now: Time, expiresAt: Time, reply: Write): (Keys, AcquireResult) {
    if expiresAt - now <= 0 then (keys, ErrExpiryNotInFuture)
    else
      var created := !Held(keys, key, now);
      (if created && reply.Applied() then keys[key := expiresAt] else keys,
       if !reply.Written? then ErrRedis else if created then Acquired else ErrHoldAlreadyCoordinated)
  }

  // ---- Whole runs ----

  datatype Action =
    | AcquireHold(holdId: string, expiresAt: Time, reply: Write)
    | ReleaseHold(holdId: string, reply: Write)
    | Advance(now: Time)

  /** `log` records which keys were set, for a caller that was told so or not, and which were deleted; the
      program does not store it. */
  datatype Event =
    | Granted(holdId: string, at: Time, deadline: Time, told: bool)
    | Deleted(holdId: string)

  datatype State = State(keys: Keys, now: Time, log: seq<Event>)

  predicate Enabled(s: State, a: Action) {
    a.Advance? ==> s.now <= a.now
  }

  function Next(environment: string, s: State, a: Action): State {
    match a
    case AcquireHold(holdId, expiresAt, reply) =>
      var (keys, result) := AcquireKey(s.keys, Key(environment, holdId), s.now, expiresAt, reply);
      State(keys, s.now,
            if result.Acquired? then s.log + [Granted(holdId, s.now, expiresAt, true)]
            else if keys != s.keys then s.log + [Granted(holdId, s.now, expiresAt, false)]
            else s.log)
    case ReleaseHold(holdId, reply) =>
      if reply.Applied()
      then State(s.keys - {Key(environment, holdId)}, s.now, s.log + [Deleted(holdId)])
      else s
    case Advance(now) => s.(now := now)
  }

  predicate IsRun(environment: string, s: State, actions: seq<Action>)
    decreases |actions|
  {
    actions == [] || (Enabled(s, actions[0]) && IsRun(environment, Next(environment, s, actions[0]), actions[1..]))
  }

  function Final(environment: string, s: State, actions: seq<Action>): State
    decreases |actions|
  {
    if actions == [] then s else Final(environment, Next(environment, s, actions[0]), actions[1..])
  }

  ghost predicate DeletedSince(log: seq<Event>, i: nat, j: nat, holdId: string)
    requires j <= |log|
  {
    exists k :: i < k < j && log[k] == Deleted(holdId)
  }

  /** Every grant that has neither been deleted nor run out is backed by its key, up to its deadline. */
  ghost predicate GrantsBacked(environment: string, s: State) {
    forall i :: 0 <= i < |s.log| && s.log[i].Granted? ==>
      || DeletedSince(s.log, i, |s.log|, s.log[i].holdId)
      || s.log[i].deadline <= s.now
      || (Key(environment, s.log[i].holdId) in s.keys && s.keys[Key(environment, s.log[i].holdId)] == s.log[i].deadline)
  }

  /** Two grants of one hold are separated by a deletion, or the first had run out by the second. */
  ghost predicate GrantsExclusive(log: seq<Event>) {
    forall i, j :: 0 <= i < j < |log| && log[i].Granted? && log[j].Granted? && log[i].holdId == log[j].holdId ==>
      DeletedSince(log, i, j, log[i].holdId) || log[i].deadline <= log[j].at
  }

  /** A grant of the hold that has neither been deleted nor run out. */
  ghost predicate StillGranted(s: State, i: nat, holdId: string)
    requires i < |s.log|
  {
    && s.log[i].Granted? && s.log[i].holdId == holdId
    && s.now < s.log[i].deadline && !DeletedSince(s.log, i, |s.log|, holdId)
  }

  /** A key that is held goes back to such a grant. */
  ghost predicate KeysExplained(environment: string, s: State) {
    forall key :: Held(s.keys, key, s.now) ==>
      exists i :: 0 <= i < |s.log| && ExplainedBy(environment, s, key, i)
  }

  ghost predicate ExplainedBy(environment: string, s: State, key: string, i: nat)
    requires i < |s.log| && key in s.keys
  {
    && s.log[i].Granted? && StillGranted(s, i, s.log[i].holdId)
    && Key(environment, s.log[i].holdId) == key && s.log[i].deadline == s.keys[key]
  }

  ghost predicate Inv(environment: string, s: State) {
    GrantsBacked(environment, s) && GrantsExclusive(s.log) && KeysExplained(environment, s)
  }

  lemma DeletedStays(log: seq<Event>, last: Event, i: nat, j: nat, holdId: string)
    requires j <= |log|
    ensures DeletedSince(log, i, j, holdId) ==> DeletedSince(log + [last], i, j, holdId)
    ensures DeletedSince(log, i, |log|, holdId) ==> DeletedSince(log + [last], i, |log| + 1, holdId)
    ensures last == Deleted(holdId) && i < |log| ==> DeletedSince(log + [last], i, |log| + 1, holdId)
  {
    var longer := log + [last];
    assert longer[|log|] == last;
    if DeletedSince(log, i, |log|, holdId) {
      var k :| i < k < |log| && log[k] == Deleted(holdId);
      assert longer[k] == Deleted(holdId);
    }
    if DeletedSince(log, i, j, holdId) {
      var k :| i < k < j && log[k] == Deleted(holdId);
      assert longer[k] == Deleted(holdId);
    }
  }

  lemma StepBacked(environment: string, s: State, a: Action)
    requires Enabled(s, a) && GrantsBacked(environment, s)
    ensures GrantsBacked(environment, Next(environment, s, a))
  {
    var s' := Next(environment, s, a);
    forall i | 0 <= i < |s'.log| && s'.log[i].Granted?
      ensures || DeletedSince(s'.log, i, |s'.log|, s'.log[i].holdId)
              || s'.log[i].deadline <= s'.now
              || (&& Key(environment, s'.log[i].holdId) in s'.keys
                  && s'.keys[Key(environment, s'.log[i].holdId)] == s'.log[i].deadline)
    {
      if i < |s.log| {
        var holdId := s.log[i].holdId;
        assert s'.log[i] == s.log[i];
        if |s'.log| > |s.log| {
          DeletedStays(s.log, s'.log[|s.log|], i, |s.log|, holdId);
        }
        if !a.Advance? && a.holdId != holdId && Key(environment, a.holdId) == Key(environment, holdId) {
          KeyInjective(environment, a.holdId, holdId);
        }
      }
    }
  }

  lemma StepExclusive(environment: string, s: State, a: Action)
    requires Enabled(s, a) && Inv(environment, s)
    ensures GrantsExclusive(Next(environment, s, a).log)
  {
    var log' := Next(environment, s, a).log;
    forall i, j | 0 <= i < j < |log'| && log'[i].Granted? && log'[j].Granted? && log'[i].holdId == log'[j].holdId
      ensures DeletedSince(log', i, j, log'[i].holdId) || log'[i].deadline <= log'[j].at
    {
      assert log'[i] == s.log[i];
      if |log'| > |s.log| {
        DeletedStays(s.log, log'[|s.log|], i, if j < |s.log| then j else |s.log|, s.log[i].holdId);
      }
      if j < |s.log| {
        assert log'[j] == s.log[j];
      }
    }
  }

  lemma DeletedOrLast(log: seq<Event>, last: Event, i: nat, holdId: string)
    requires i < |log|
    ensures DeletedSince(log + [last], i, |log| + 1, holdId) <==>
              DeletedSince(log, i, |log|, holdId) || last == Deleted(holdId)
  {
    DeletedStays(log, last, i, |log|, holdId);
    if k :| i < k < |log| && (log + [last])[k] == Deleted(holdId) {
      assert log[k] == Deleted(holdId);
    }
  }

  /** A key held before and after a step goes back to the same grant. */
  lemma StaysExplained(environment: string, s: State, a: Action, key: string, i: nat)
    requires Enabled(s, a) && i < |s.log| && key in s.keys && ExplainedBy(environment, s, key, i)
    requires var s' := Next(environment, s, a);
             Held(s'.keys, key, s'.now) && s'.keys[key] == s.keys[key]
    ensures i < |Next(environment, s, a).log| && ExplainedBy(environment, Next(environment, s, a), key, i)
  {
    var s' := Next(environment, s, a);
    assert s'.log[i] == s.log[i];
    if |s'.log| > |s.log| {
      DeletedOrLast(s.log, s'.log[|s.log|], i, s.log[i].holdId);
    }
  }

  lemma StepExplained(environment: string, s: State, a: Action)
    requires Enabled(s, a) && KeysExplained(environment, s)
    ensures KeysExplained(environment, Next(environment, s, a))
  {
    var s' := Next(environment, s, a);
    forall key | Held(s'.keys, key, s'.now)
      ensures exists i :: 0 <= i < |s'.log| && ExplainedBy(environment, s', key, i)
    {
      if Held(s.keys, key, s.now) && s'.keys[key] == s.keys[key] {
        var i :| 0 <= i < |s.log| && ExplainedBy(environment, s, key, i);
        StaysExplained(environment, s, a, key, i);
      } else {
        NewlyHeld(environment, s, a, key);
      }
    }
  }

  lemma NewlyHeld(environment: string, s: State, a: Action, key: string)
    requires Enabled(s, a)
    requires var s' := Next(environment, s, a);
             Held(s'.keys, key, s'.now) && !(Held(s.keys, key, s.now) && s'.keys[key] == s.keys[key])
    ensures var s' := Next(environment, s, a);
            |s'.log| > |s.log| && ExplainedBy(environment, s', key, |s.log|)
  {
  }

  lemma {:induction false} RunKeeps(environment: string, s: State, actions: seq<Action>)
    requires IsRun(environment, s, actions) && Inv(environment, s)
    ensures Inv(environment, Final(environment, s, actions))
    decreases |actions|
  {
    if actions != [] {
      StepBacked(environment, s, actions[0]);
      StepExclusive(environment, s, actions[0]);
      StepExplained(environment, s, actions[0]);
      RunKeeps(environment, Next(environment, s, actions[0]), actions[1..]);
    }
  }

  /** Coordinator exclusion: over any run of acquisitions, releases, lost replies and passing time,
      two acquisitions of one hold, whether their callers were told or not, are separated by a release
      of that hold or by the first one's expiry; and a grant that is neither released nor expired still
      has its key. */
  lemma CoordinatorExclusion(environment: string, now: Time, actions: seq<Action>)
    requires IsRun(environment, State(map[], now, []), actions)
    ensures var s := Final(environment, State(map[], now, []), actions);
            GrantsExclusive(s.log) && GrantsBacked(environment, s)
  {
    RunKeeps(environment, State(map[], now, []), actions);
  }

  /** And it excludes no more than that: after any run, an acquisition with its expiry in the future and a
      reply that arrives is granted if and only if each earlier grant of the hold has been released or has
      run out. */
  lemma GrantedIffFree(environment: string, now: Time, actions: seq<Action>, holdId: string, expiresAt: Time)
    requires IsRun(environment, State(map[], now, []), actions)
    requires Final(environment, State(map[], now, []), actions).now < expiresAt
    ensures var s := Final(environment, State(map[], now, []), actions);
            var s' := Next(environment, s, AcquireHold(holdId, expiresAt, Written));
            s'.log == (if forall i :: 0 <= i < |s.log| ==> !StillGranted(s, i, holdId)
                       then s.log + [Granted(holdId, s.now, expiresAt, true)] else s.log)
  {
    RunKeeps(environment, State(map[], now, []), actions);
    var s, key := Final(environment, State(map[], now, []), actions), Key(environment, holdId);
    if Held(s.keys, key, s.now) {
      var i :| 0 <= i < |s.log| && ExplainedBy(environment, s, key, i);
      KeyInjective(environment, s.log[i].holdId, holdId);
      assert StillGranted(s, i, holdId);
    }
  }
}
