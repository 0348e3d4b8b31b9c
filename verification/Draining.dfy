/** Many batches of one relay against a table that holds rows whose publication always fails. */
module Draining {
  import opened Wrappers
  import opened Sets
  import opened Sequences
  import opened Outbox
  import opened Kafka
  import opened RelayService

  /** One call of `publishBatch`: the rows that appeared since the last, what it claimed and what it was
      answered. */
  datatype Round = Round(arrivals: Table, events: seq<OutboxEvent>, fates: seq<Fate>)

  /** Rows just enqueued. */
  ghost predicate Arrivals(rows: Table, arrivals: Table) {
    && arrivals.Keys !! rows.Keys && KeyedById(arrivals)
    && forall id :: id in arrivals ==> arrivals[id] == AsEnqueued(arrivals[id])
  }

  function Arrive(st: Progress, arrivals: Table): Progress {
    st.(rows := arrivals + st.rows)
  }

  function AfterBatch(cluster: Cluster, st: Progress, round: Round): Progress {
    if |round.events| <= |round.fates|
    then After(cluster, st.(published := 0, threw := false), round.events, round.fates, |round.events|)
    else st
  }

  function AfterRound(cluster: Cluster, st: Progress, round: Round): Progress {
    AfterBatch(cluster, Arrive(st, round.arrivals), round)
  }

  function AfterRounds(cluster: Cluster, st: Progress, rounds: seq<Round>): Progress
    decreases |rounds|
  {
    if rounds == [] then st else AfterRounds(cluster, AfterRound(cluster, st, rounds[0]), rounds[1..])
  }

  /** Publishing the rows in `bad` never succeeds, publishing any other row does, and the
      bookkeeping of a failure does not throw. */
  ghost predicate Poisoned(bad: set<string>, events: seq<OutboxEvent>, fates: seq<Fate>) {
    && |events| <= |fates|
    && forall i :: 0 <= i < |events| ==>
         && fates[i].increment.Written? && fates[i].note.Written?
         && if events[i].id in bad then !fates[i].send.Acknowledged?
            else fates[i].connects && fates[i].send.Acknowledged? && fates[i].mark.Written?
  }

  /** Round after round of one relay. */
  ghost predicate IsPoisonedRun(cluster: Cluster, st: Progress, rounds: seq<Round>, bad: set<string>)
    decreases |rounds|
  {
    rounds == [] || (IsPoisonedRound(st, rounds[0], bad) &&
                     IsPoisonedRun(cluster, AfterRound(cluster, st, rounds[0]), rounds[1..], bad))
  }

  ghost predicate IsPoisonedRound(st: Progress, round: Round, bad: set<string>) {
    && Arrivals(st.rows, round.arrivals)
    && IsClaim(Arrive(st, round.arrivals).rows, {}, round.events)
    && Poisoned(bad, round.events, round.fates)
  }

  /** Nothing is enqueued during the rounds. */
  ghost predicate NoArrivals(rounds: seq<Round>) {
    forall j :: 0 <= j < |rounds| ==> rounds[j].arrivals == map[]
  }

  lemma {:induction false} PoisonedBatch(cluster: Cluster, start: Progress, events: seq<OutboxEvent>, fates: seq<Fate>,
                                         bad: set<string>, n: nat)
    requires n <= |events| && Poisoned(bad, events, fates) && !start.threw
    ensures !After(cluster, start, events, fates, n).threw
    ensures Members(Marked(cluster, start, events, fates, n)) == Ids(events[..n]) - bad
  {
    if n > 0 {
      PoisonedBatch(cluster, start, events, fates, bad, n - 1);
      IdsAppend(events, n - 1);
      var marked := Marked(cluster, start, events, fates, n - 1);
      assert Members(marked + [events[n - 1].id]) == Members(marked) + {events[n - 1].id};
      var before := After(cluster, start, events, fates, n - 1);
      var send := EffectiveSend(before.connected, fates[n - 1].connects, fates[n - 1].send);
      assert !Book(before.rows, events[n - 1], send.Acknowledged?, fates[n - 1]).threw;
    }
  }

  /** One round takes out of the backlog exactly the claimed rows that can be published. */
  lemma RoundEffect(cluster: Cluster, st: Progress, round: Round, bad: set<string>)
    requires Poisoned(bad, round.events, round.fates)
    ensures Unpublished(AfterBatch(cluster, st, round).rows) == Unpublished(st.rows) - (Ids(round.events) - bad)
  {
    var start := st.(published := 0, threw := false);
    assert round.events[..|round.events|] == round.events;
    PoisonedBatch(cluster, start, round.events, round.fates, bad, |round.events|);
    BatchBacklog(cluster, start, round.events, round.fates, |round.events|);
  }

  function Good(rows: Table, bad: set<string>): set<string> {
    Unpublished(rows) - bad
  }

  function Poison(rows: Table, bad: set<string>): set<string> {
    Unpublished(rows) * bad
  }

  // ---- The backlog alone ----

  /** `claimed` is as much of the backlog as a batch may hold. */
  ghost predicate FullClaim(backlog: set<string>, claimed: set<string>) {
    claimed <= backlog && |claimed| == if |backlog| < BATCH_SIZE then |backlog| else BATCH_SIZE
  }

  /** The backlog after successive claims, of each of which the publishable part goes. */
  function BacklogAfter(backlog: set<string>, claims: seq<set<string>>, bad: set<string>): set<string>
    decreases |claims|
  {
    if claims == [] then backlog else BacklogAfter(backlog - (claims[0] - bad), claims[1..], bad)
  }

  ghost predicate FullClaims(backlog: set<string>, claims: seq<set<string>>, bad: set<string>)
    decreases |claims|
  {
    claims == [] || (FullClaim(backlog, claims[0]) && FullClaims(backlog - (claims[0] - bad), claims[1..], bad))
  }

  function Less(g: nat, room: nat): nat {
    if g <= room then 0 else g - room
  }

  /** One claim leaves the poison rows and takes at least `min(g, BATCH_SIZE - k)` of the good ones. */
  lemma ClaimDrains(backlog: set<string>, claimed: set<string>, bad: set<string>)
    requires FullClaim(backlog, claimed) && |backlog * bad| < BATCH_SIZE
    ensures (backlog - (claimed - bad)) * bad == backlog * bad
    ensures |(backlog - (claimed - bad)) - bad| <= Less(|backlog - bad|, BATCH_SIZE - |backlog * bad|)
  {
    SplitSize(backlog, bad);
    SplitSize(claimed, bad);
    SubsetSize(claimed * bad, backlog * bad);
    SubsetSize(claimed - bad, backlog - bad);
    assert (backlog - (claimed - bad)) - bad == (backlog - bad) - (claimed - bad);
  }

  /** What is left of `g` when `room` is taken away `n` times. */
  function Remaining(g: nat, room: nat, n: nat): nat
    decreases n
  {
    if n == 0 then g else Remaining(Less(g, room), room, n - 1)
  }

  lemma {:induction false} RemainingMonotone(g: nat, h: nat, room: nat, n: nat)
    requires g <= h
    ensures Remaining(g, room, n) <= Remaining(h, room, n)
    decreases n
  {
    if n > 0 {
      RemainingMonotone(Less(g, room), Less(h, room), room, n - 1);
    }
  }

  /** In closed form: `g - n * room`, and nothing as soon as `n * room >= g`. */
  lemma {:induction false} RemainingClosed(g: nat, room: nat, n: nat)
    ensures Remaining(g, room, n) == if n * room >= g then 0 else g - n * room
    decreases n
  {
    if n > 0 {
      RemainingClosed(Less(g, room), room, n - 1);
      assert n * room == (n - 1) * room + room;
    }
  }

  lemma {:induction false} ClaimsDrain(backlog: set<string>, claims: seq<set<string>>, bad: set<string>)
    requires FullClaims(backlog, claims, bad) && |backlog * bad| < BATCH_SIZE
    ensures BacklogAfter(backlog, claims, bad) * bad == backlog * bad
    ensures |BacklogAfter(backlog, claims, bad) - bad|
         <= Remaining(|backlog - bad|, BATCH_SIZE - |backlog * bad|, |claims|)
    decreases |claims|
  {
    if claims != [] {
      var next, room := backlog - (claims[0] - bad), BATCH_SIZE - |backlog * bad|;
      ClaimDrains(backlog, claims[0], bad);
      ClaimsDrain(next, claims[1..], bad);
      RemainingMonotone(|next - bad|, Less(|backlog - bad|, room), room, |claims| - 1);
    }
  }

  // ---- The rounds ----

  function ClaimsOf(rounds: seq<Round>): seq<set<string>> {
    if rounds == [] then [] else [Ids(rounds[0].events)] + ClaimsOf(rounds[1..])
  }

  lemma RoundClaims(cluster: Cluster, st: Progress, round: Round, bad: set<string>)
    requires IsClaim(st.rows, {}, round.events) && Poisoned(bad, round.events, round.fates)
    ensures FullClaim(Unpublished(st.rows), Ids(round.events))
    ensures Unpublished(AfterBatch(cluster, st, round).rows) == Unpublished(st.rows) - (Ids(round.events) - bad)
  {
    RoundEffect(cluster, st, round, bad);
    ClaimSize(st.rows, {}, round.events);
    IdsSize(round.events);
    assert Eligible(st.rows, {}) == Unpublished(st.rows);
  }

  lemma NoneLater(rounds: seq<Round>)
    requires rounds != [] && NoArrivals(rounds)
    ensures NoArrivals(rounds[1..])
  {
    forall j | 0 <= j < |rounds[1..]| ensures rounds[1..][j].arrivals == map[] {
      assert rounds[1..][j] == rounds[j + 1];
    }
  }

  lemma {:induction false} RoundsAreClaims(cluster: Cluster, st: Progress, rounds: seq<Round>, bad: set<string>)
    requires IsPoisonedRun(cluster, st, rounds, bad) && NoArrivals(rounds)
    ensures |ClaimsOf(rounds)| == |rounds|
    ensures FullClaims(Unpublished(st.rows), ClaimsOf(rounds), bad)
    ensures Unpublished(AfterRounds(cluster, st, rounds).rows)
        == BacklogAfter(Unpublished(st.rows), ClaimsOf(rounds), bad)
    decreases |rounds|
  {
    if rounds != [] {
      assert Arrive(st, rounds[0].arrivals) == st;
      RoundClaims(cluster, st, rounds[0], bad);
      NoneLater(rounds);
      RoundsAreClaims(cluster, AfterRound(cluster, st, rounds[0]), rounds[1..], bad);
      assert ClaimsOf(rounds)[1..] == ClaimsOf(rounds[1..]);
    }
  }

  /** Draining: with `k < BATCH_SIZE` poison rows among the unpublished ones and no new rows, `n` rounds leave at most
      `g - n * (BATCH_SIZE - k)` of the `g` good rows, and none once `n >= ceil(g / (BATCH_SIZE - k))`;
      the poison rows are all still there. */
  lemma Draining(cluster: Cluster, st: Progress, rounds: seq<Round>, bad: set<string>)
    requires IsPoisonedRun(cluster, st, rounds, bad) && NoArrivals(rounds)
    requires |Poison(st.rows, bad)| < BATCH_SIZE
    ensures Poison(AfterRounds(cluster, st, rounds).rows, bad) == Poison(st.rows, bad)
    ensures var g, taken := |Good(st.rows, bad)|, |rounds| * (BATCH_SIZE - |Poison(st.rows, bad)|);
            if taken >= g then Good(AfterRounds(cluster, st, rounds).rows, bad) == {}
            else |Good(AfterRounds(cluster, st, rounds).rows, bad)| <= g - taken
  {
    RoundsAreClaims(cluster, st, rounds, bad);
    ClaimsDrain(Unpublished(st.rows), ClaimsOf(rounds), bad);
    RemainingClosed(|Good(st.rows, bad)|, BATCH_SIZE - |Poison(st.rows, bad)|, |rounds|);
  }

  lemma {:induction false} RoundFrame(cluster: Cluster, st: Progress, round: Round, id: string)
    ensures var rows := AfterBatch(cluster, st, round).rows;
            && (id in rows <==> id in st.rows)
            && (id in rows ==> rows[id].occurredAt == st.rows[id].occurredAt)
            && (id in rows && id !in Ids(round.events) ==> rows[id] == st.rows[id])
  {
    if |round.events| <= |round.fates| {
      assert round.events[..|round.events|] == round.events;
      BatchFrame(cluster, st.(published := 0, threw := false), round.events, round.fates, |round.events|, id);
      assert id in st.rows ==>
               AsEnqueued(AfterBatch(cluster, st, round).rows[id]).occurredAt == AsEnqueued(st.rows[id]).occurredAt;
    }
  }

  /** One round leaves such a row alone. */
  lemma StarvedRound(cluster: Cluster, st: Progress, round: Round, bad: set<string>, id: string)
    requires IsPoisonedRound(st, round, bad) && id in Unpublished(st.rows)
    requires |StrictlyOlder(st.rows, {}, id) * bad| >= BATCH_SIZE
    ensures id !in Ids(round.events)
    ensures var next := AfterRound(cluster, st, round);
            && id in next.rows && next.rows[id] == st.rows[id]
            && |StrictlyOlder(next.rows, {}, id) * bad| >= BATCH_SIZE
  {
    var here, older := Arrive(st, round.arrivals), StrictlyOlder(st.rows, {}, id) * bad;
    SubsetSize(older, StrictlyOlder(here.rows, {}, id));
    ClaimMembership(here.rows, {}, round.events, id);
    RoundEffect(cluster, here, round, bad);
    RoundFrame(cluster, here, round, id);
    forall other | other in older ensures other in StrictlyOlder(AfterRound(cluster, st, round).rows, {}, id) * bad {
      RoundFrame(cluster, here, round, other);
    }
    SubsetSize(older, StrictlyOlder(AfterRound(cluster, st, round).rows, {}, id) * bad);
  }

  /** The bound on `k` is tight: a row, however publishable, that has `BATCH_SIZE` older poison rows
      is claimed in no round at all and never changes, whatever is enqueued. */
  lemma {:induction false} Starvation(cluster: Cluster, st: Progress, rounds: seq<Round>, bad: set<string>, id: string)
    requires IsPoisonedRun(cluster, st, rounds, bad)
    requires id in Unpublished(st.rows)
    requires |StrictlyOlder(st.rows, {}, id) * bad| >= BATCH_SIZE
    ensures forall j :: 0 <= j < |rounds| ==> id !in Ids(rounds[j].events)
    ensures var end := AfterRounds(cluster, st, rounds).rows; id in end && end[id] == st.rows[id]
    decreases |rounds|
  {
    if rounds != [] {
      StarvedRound(cluster, st, rounds[0], bad, id);
      Starvation(cluster, AfterRound(cluster, st, rounds[0]), rounds[1..], bad, id);
      forall j | 0 <= j < |rounds| ensures id !in Ids(rounds[j].events) {
        if j > 0 {
          assert rounds[j] == rounds[1..][j - 1];
        }
      }
    }
  }

  // ---- One row ----

  /** Poison and publishable rows that go ahead of `id`, ties counted as ahead. */
  function PoisonAhead(rows: Table, bad: set<string>, id: string): set<string>
    requires id in rows
  {
    AtLeastAsOld(rows, {}, id) * bad
  }

  function GoodAhead(rows: Table, bad: set<string>, id: string): set<string>
    requires id in rows
  {
    AtLeastAsOld(rows, {}, id) - bad
  }

  /** A round that leaves a row out is full of rows ahead of it. */
  lemma LeftOut(rows: Table, events: seq<OutboxEvent>, id: string)
    requires IsClaim(rows, {}, events) && id in Unpublished(rows) && id !in Ids(events)
    ensures Ids(events) <= AtLeastAsOld(rows, {}, id) && |Ids(events)| == BATCH_SIZE
  {
    IdsSize(events);
    assert id in Eligible(rows, {});
  }

  /** What a round leaves ahead of a row that stays unpublished. */
  lemma AheadAfter(cluster: Cluster, st: Progress, round: Round, bad: set<string>, id: string)
    requires Poisoned(bad, round.events, round.fates)
    requires id in Unpublished(st.rows) && id in Unpublished(AfterBatch(cluster, st, round).rows)
    ensures AtLeastAsOld(AfterBatch(cluster, st, round).rows, {}, id)
         == AtLeastAsOld(st.rows, {}, id) - (Ids(round.events) - bad)
  {
    var next := AfterBatch(cluster, st, round);
    RoundEffect(cluster, st, round, bad);
    RoundFrame(cluster, st, round, id);
    forall other ensures other in AtLeastAsOld(next.rows, {}, id)
                    <==> other in AtLeastAsOld(st.rows, {}, id) - (Ids(round.events) - bad)
    {
      RoundFrame(cluster, st, round, other);
    }
  }

  /** Each round takes the row or at least `BATCH_SIZE - p` of the good rows ahead of it, with `p` poison
      rows ahead of it, which stay. */
  lemma RowRound(cluster: Cluster, st: Progress, round: Round, bad: set<string>, id: string)
    requires IsClaim(st.rows, {}, round.events) && Poisoned(bad, round.events, round.fates)
    requires id in Unpublished(st.rows) && id !in bad
    ensures var next := AfterBatch(cluster, st, round).rows;
            if id in Ids(round.events) then id !in Unpublished(next)
            else
              && id in Unpublished(next)
              && PoisonAhead(next, bad, id) == PoisonAhead(st.rows, bad, id)
              && |GoodAhead(next, bad, id)| <=
                 |GoodAhead(st.rows, bad, id)| - (BATCH_SIZE - |PoisonAhead(st.rows, bad, id)|)
  {
    RoundEffect(cluster, st, round, bad);
    if id !in Ids(round.events) {
      LeftOut(st.rows, round.events, id);
      AheadAfter(cluster, st, round, bad, id);
      ClaimedAhead(Ids(round.events), AtLeastAsOld(st.rows, {}, id), bad);
    }
  }

  /** A full claim among the rows ahead takes out all but the poison rows in it. */
  lemma ClaimedAhead(claimed: set<string>, ahead: set<string>, bad: set<string>)
    requires claimed <= ahead && |claimed| == BATCH_SIZE
    ensures (ahead - (claimed - bad)) * bad == ahead * bad
    ensures |(ahead - (claimed - bad)) - bad| <= |ahead - bad| - (BATCH_SIZE - |ahead * bad|)
  {
    SplitSize(claimed, bad);
    SubsetSize(claimed * bad, ahead * bad);
    SubsetSize(claimed - bad, ahead - bad);
    assert (ahead - (claimed - bad)) - bad == (ahead - bad) - (claimed - bad);
  }

  /** A published row stays so. */
  lemma {:induction false} RoundsShrink(cluster: Cluster, st: Progress, rounds: seq<Round>, bad: set<string>,
                                        id: string)
    requires IsPoisonedRun(cluster, st, rounds, bad)
    requires id in st.rows && id !in Unpublished(st.rows)
    ensures id !in Unpublished(AfterRounds(cluster, st, rounds).rows)
    decreases |rounds|
  {
    if rounds != [] {
      RoundEffect(cluster, Arrive(st, rounds[0].arrivals), rounds[0], bad);
      RoundFrame(cluster, Arrive(st, rounds[0].arrivals), rounds[0], id);
      RoundsShrink(cluster, AfterRound(cluster, st, rounds[0]), rounds[1..], bad, id);
    }
  }

  /** Rounds it takes to get through `q` rows and one more, `room` at a time. */
  function RoundsNeeded(q: nat, room: nat): (n: nat)
    requires room > 0
    ensures n > 0
  {
    if q < room then 1 else 1 + RoundsNeeded(q - room, room)
  }

  lemma {:induction false} FewerNeeded(q: nat, more: nat, room: nat)
    requires room > 0 && q <= more
    ensures RoundsNeeded(q, room) <= RoundsNeeded(more, room)
  {
    if q >= room {
      FewerNeeded(q - room, more - room, room);
    }
  }

  /** In closed form, `q / room + 1`: enough to get past `q`, and one fewer is not. */
  lemma {:induction false} NeededClosed(q: nat, room: nat)
    requires room > 0
    ensures (RoundsNeeded(q, room) - 1) * room <= q < RoundsNeeded(q, room) * room
  {
    if q >= room {
      NeededClosed(q - room, room);
      var n := RoundsNeeded(q - room, room);
      assert (n + 1) * room == n * room + room && n * room == (n - 1) * room + room;
    }
  }

  /** A round that leaves the row out brings it nearer. */
  lemma RowNearer(cluster: Cluster, st: Progress, round: Round, bad: set<string>, id: string)
    requires IsClaim(st.rows, {}, round.events) && Poisoned(bad, round.events, round.fates)
    requires id in Unpublished(st.rows) && id !in bad && |PoisonAhead(st.rows, bad, id)| < BATCH_SIZE
    requires id !in Ids(round.events)
    ensures var next := AfterBatch(cluster, st, round).rows;
            && id in Unpublished(next)
            && |PoisonAhead(next, bad, id)| == |PoisonAhead(st.rows, bad, id)|
            && RoundsNeeded(|GoodAhead(next, bad, id)|, BATCH_SIZE - |PoisonAhead(next, bad, id)|)
               < RoundsNeeded(|GoodAhead(st.rows, bad, id)|, BATCH_SIZE - |PoisonAhead(st.rows, bad, id)|)
  {
    var room, q := BATCH_SIZE - |PoisonAhead(st.rows, bad, id)|, |GoodAhead(st.rows, bad, id)|;
    RowRound(cluster, st, round, bad, id);
    FewerNeeded(|GoodAhead(AfterBatch(cluster, st, round).rows, bad, id)|, q - room, room);
  }

  /** The row can be published, `p < BATCH_SIZE` poison rows and `q` good ones are ahead of it, and there
      are `q / (BATCH_SIZE - p) + 1` rounds (NeededClosed). */
  ghost predicate EnoughRounds(st: Progress, rounds: nat, bad: set<string>, id: string) {
    && id in Unpublished(st.rows) && id !in bad
    && |PoisonAhead(st.rows, bad, id)| < BATCH_SIZE
    && rounds >= RoundsNeeded(|GoodAhead(st.rows, bad, id)|, BATCH_SIZE - |PoisonAhead(st.rows, bad, id)|)
  }

  lemma RowStep(cluster: Cluster, st: Progress, round: Round, rounds: nat, bad: set<string>, id: string)
    requires IsClaim(st.rows, {}, round.events) && Poisoned(bad, round.events, round.fates)
    requires EnoughRounds(st, rounds, bad, id)
    ensures rounds > 0
    ensures var next := AfterBatch(cluster, st, round);
            && id in next.rows
            && (id in Unpublished(next.rows) ==> EnoughRounds(next, rounds - 1, bad, id))
  {
    RoundFrame(cluster, st, round, id);
    if id in Ids(round.events) {
      RoundEffect(cluster, st, round, bad);
    } else {
      RowNearer(cluster, st, round, bad, id);
    }
  }

  /** All rows that appear are strictly younger than `t`. */
  ghost predicate ArriveAfter(rounds: seq<Round>, t: Time) {
    forall j :: 0 <= j < |rounds| ==> YoungerThan(rounds[j].arrivals, t)
  }

  ghost predicate YoungerThan(arrivals: Table, t: Time) {
    forall id :: id in arrivals ==> t < arrivals[id].occurredAt
  }

  /** Younger rows do not get ahead. */
  lemma ArrivalsBehind(st: Progress, arrivals: Table, rounds: nat, bad: set<string>, id: string)
    requires Arrivals(st.rows, arrivals) && EnoughRounds(st, rounds, bad, id)
    requires YoungerThan(arrivals, st.rows[id].occurredAt)
    ensures EnoughRounds(Arrive(st, arrivals), rounds, bad, id)
  {
    assert AtLeastAsOld(Arrive(st, arrivals).rows, {}, id) == AtLeastAsOld(st.rows, {}, id);
  }

  lemma AgeStays(cluster: Cluster, st: Progress, round: Round, id: string)
    requires id in st.rows
    ensures id in AfterRound(cluster, st, round).rows
    ensures AfterRound(cluster, st, round).rows[id].occurredAt == st.rows[id].occurredAt
  {
    RoundFrame(cluster, Arrive(st, round.arrivals), round, id);
  }

  lemma LaterArrivals(rounds: seq<Round>, t: Time)
    requires rounds != [] && ArriveAfter(rounds, t)
    ensures YoungerThan(rounds[0].arrivals, t) && ArriveAfter(rounds[1..], t)
  {
    forall j | 0 <= j < |rounds[1..]| ensures YoungerThan(rounds[1..][j].arrivals, t) {
      assert rounds[1..][j] == rounds[j + 1];
    }
  }

  /** However many poison rows there are, and however many younger rows keep arriving, a good row is
      published after enough rounds for what is ahead of it. */
  lemma {:induction false} RowDrains(cluster: Cluster, st: Progress, rounds: seq<Round>, bad: set<string>, id: string)
    requires IsPoisonedRun(cluster, st, rounds, bad) && EnoughRounds(st, |rounds|, bad, id)
    requires ArriveAfter(rounds, st.rows[id].occurredAt)
    ensures id !in Unpublished(AfterRounds(cluster, st, rounds).rows)
    decreases |rounds|
  {
    assert rounds != [];
    var next := AfterRound(cluster, st, rounds[0]);
    LaterArrivals(rounds, st.rows[id].occurredAt);
    ArrivalsBehind(st, rounds[0].arrivals, |rounds|, bad, id);
    RowStep(cluster, Arrive(st, rounds[0].arrivals), rounds[0], |rounds|, bad, id);
    AgeStays(cluster, st, rounds[0], id);
    if id in Unpublished(next.rows) {
      RowDrains(cluster, next, rounds[1..], bad, id);
    } else {
      RoundsShrink(cluster, next, rounds[1..], bad, id);
    }
  }

  /** Hence, if no poison row is exactly as old as the good row, enough rounds publish the row if and
      only if fewer than `BATCH_SIZE` poison rows are older. */
  lemma PublishedIffRoom(cluster: Cluster, st: Progress, rounds: seq<Round>, bad: set<string>, id: string)
    requires IsPoisonedRun(cluster, st, rounds, bad)
    requires id in Unpublished(st.rows) && id !in bad && ArriveAfter(rounds, st.rows[id].occurredAt)
    requires forall other :: other in Poison(st.rows, bad) ==> st.rows[other].occurredAt != st.rows[id].occurredAt
    requires var p := |PoisonAhead(st.rows, bad, id)|;
             p < BATCH_SIZE ==> |rounds| >= RoundsNeeded(|GoodAhead(st.rows, bad, id)|, BATCH_SIZE - p)
    ensures id !in Unpublished(AfterRounds(cluster, st, rounds).rows)
       <==> |StrictlyOlder(st.rows, {}, id) * bad| < BATCH_SIZE
  {
    assert PoisonAhead(st.rows, bad, id) == StrictlyOlder(st.rows, {}, id) * bad;
    if |PoisonAhead(st.rows, bad, id)| < BATCH_SIZE {
      RowDrains(cluster, st, rounds, bad, id);
    } else {
      Starvation(cluster, st, rounds, bad, id);
    }
  }
}
