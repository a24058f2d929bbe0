/** How far the blockchain watcher has read: the confirmed and the unconfirmed head, and which blocks
    each update delivers as confirmed. */
module HeadSync {

  datatype Heads = Heads(confirmed: nat, unconfirmed: nat)

  /** Confirmations required, largest number of blocks read per update, first block. */
  datatype Config = Config(confirmations: nat, chunk: nat, startBlock: nat)

  function NewUnconfirmed(cfg: Config, h: Heads, height: nat): nat {
    if h.unconfirmed + cfg.chunk < height then h.unconfirmed + cfg.chunk else height
  }

  function NewConfirmed(cfg: Config, h: Heads, height: nat): nat {
    var u := NewUnconfirmed(cfg, h, height);
    if u < cfg.confirmations then 0 else u - cfg.confirmations
  }

  predicate AlreadyProcessed(cfg: Config, h: Heads, height: nat) {
    h.confirmed >= NewConfirmed(cfg, h, height) && h.unconfirmed >= NewUnconfirmed(cfg, h, height)
  }

  /** `set_head` accepts only positive heads with the confirmed one behind. */
  predicate HeadsAccepted(c: nat, u: nat) {
    0 < c < u
  }

  /** One update: fall back to the confirmed head on a reorganisation, then read on if there is anything new. */
  datatype Poll = Poll(reset: bool, height: nat)

  function Base(h: Heads, poll: Poll): Heads {
    if poll.reset then Heads(h.confirmed, h.confirmed) else h
  }

  predicate Reads(cfg: Config, h: Heads, poll: Poll) {
    !AlreadyProcessed(cfg, Base(h, poll), poll.height)
  }

  function Advance(cfg: Config, h: Heads, poll: Poll): Heads {
    var b := Base(h, poll);
    var c, u := NewConfirmed(cfg, b, poll.height), NewUnconfirmed(cfg, b, poll.height);
    if Reads(cfg, h, poll) && HeadsAccepted(c, u) then Heads(c, u) else b
  }

  function HeadRun(cfg: Config, polls: seq<Poll>): Heads {
    if polls == [] then Heads(cfg.startBlock, cfg.startBlock)
    else Advance(cfg, HeadRun(cfg, polls[..|polls| - 1]), polls[|polls| - 1])
  }

  /** Does this update deliver block b as confirmed? */
  predicate Delivers(cfg: Config, h: Heads, poll: Poll, b: nat) {
    Reads(cfg, h, poll) && h.confirmed < b <= NewConfirmed(cfg, Base(h, poll), poll.height)
  }

  /** How many updates of the run deliver block b as confirmed. */
  function Deliveries(cfg: Config, polls: seq<Poll>, b: nat): nat {
    if polls == [] then 0
    else
      var before, last := polls[..|polls| - 1], polls[|polls| - 1];
      Deliveries(cfg, before, b) + (if Delivers(cfg, HeadRun(cfg, before), last, b) then 1 else 0)
  }

  /** An update that reads on reads to the head of the chain or a whole chunk, whichever is less, and confirms all of it
      but the required number of blocks. */
  lemma ReadsAChunk(cfg: Config, h: Heads, poll: Poll)
    requires Reads(cfg, h, poll)
    ensures var b := Base(h, poll);
            var c, u := NewConfirmed(cfg, b, poll.height), NewUnconfirmed(cfg, b, poll.height);
            && u <= poll.height && u <= b.unconfirmed + cfg.chunk && (u == poll.height || u == b.unconfirmed + cfg.chunk)
            && (cfg.confirmations <= u ==> c + cfg.confirmations == u) && (u < cfg.confirmations ==> c == 0)
  {
  }

  /** On every run an update reads on if and only if it comes to a new block. */
  lemma ReadsNewBlocksOnly(cfg: Config, polls: seq<Poll>, poll: Poll)
    ensures var h := HeadRun(cfg, polls);
            Reads(cfg, h, poll) <==> Base(h, poll).unconfirmed < NewUnconfirmed(cfg, Base(h, poll), poll.height)
  {
    HeadsNotFarApart(cfg, polls);
  }

  lemma {:induction false} HeadsNotFarApart(cfg: Config, polls: seq<Poll>)
    ensures var h := HeadRun(cfg, polls); h.confirmed <= h.unconfirmed <= h.confirmed + cfg.confirmations
  {
    if polls != [] {
      HeadsNotFarApart(cfg, polls[..|polls| - 1]);
    }
  }

  /** With one confirmation, polls of a chain that stays as it is catch up with it by at least a block each. */
  lemma {:induction false} CatchesUp(cfg: Config, polls: seq<Poll>, height: nat, k: nat)
    requires cfg.confirmations == 1 && cfg.startBlock >= 1 && cfg.chunk >= 1
    ensures var u, u' := HeadRun(cfg, polls).unconfirmed, HeadRun(cfg, Waiting(polls, height, k)).unconfirmed;
            u <= u' && (u' >= height || u' >= u + k)
    decreases k
  {
    if k > 0 {
      CatchesUp(cfg, polls, height, k - 1);
      OneMorePoll(cfg, Waiting(polls, height, k - 1), height);
    }
  }

  lemma OneMorePoll(cfg: Config, polls: seq<Poll>, height: nat)
    requires cfg.confirmations == 1 && cfg.startBlock >= 1 && cfg.chunk >= 1
    ensures var u, u' := HeadRun(cfg, polls).unconfirmed, HeadRun(cfg, polls + [Poll(false, height)]).unconfirmed;
            u <= u' && (u' >= height || u' >= u + 1)
  {
    var h, poll := HeadRun(cfg, polls), Poll(false, height);
    OneConfirmationIsSteady(cfg, polls);
    SteadyDeliversOnce(cfg, polls, 0);
    RunSnoc(cfg, polls, poll, 0);
    OnePollOn(cfg, h, height);
  }

  lemma OnePollOn(cfg: Config, h: Heads, height: nat)
    requires cfg.confirmations == 1 && cfg.chunk >= 1 && 1 <= h.confirmed <= h.unconfirmed <= h.confirmed + 1
    ensures var u' := Advance(cfg, h, Poll(false, height)).unconfirmed;
            h.unconfirmed <= u' && (u' >= height || u' >= h.unconfirmed + 1)
  {
  }

  /** The polls followed by k polls of the same chain. */
  function Waiting(polls: seq<Poll>, height: nat, k: nat): seq<Poll> {
    if k == 0 then polls else Waiting(polls, height, k - 1) + [Poll(false, height)]
  }

  /** Every update of the run that reads on does so at least up to the confirmed head. */
  predicate Steady(cfg: Config, polls: seq<Poll>) {
    polls != [] ==>
      var before, last := polls[..|polls| - 1], polls[|polls| - 1];
      var h := HeadRun(cfg, before);
      Steady(cfg, before) && (Reads(cfg, h, last) ==> h.confirmed <= NewConfirmed(cfg, Base(h, last), last.height))
  }

  /** Block b has been delivered once if it lies after the start block and up to the confirmed head, else never. */
  predicate DeliveredOnce(cfg: Config, polls: seq<Poll>, b: nat) {
    Deliveries(cfg, polls, b) == if cfg.startBlock < b <= HeadRun(cfg, polls).confirmed then 1 else 0
  }

  /** For any number of confirmations, a steady run delivers each block once. */
  lemma {:induction false} SteadyDeliversOnce(cfg: Config, polls: seq<Poll>, b: nat)
    requires cfg.confirmations >= 1 && Steady(cfg, polls)
    ensures DeliveredOnce(cfg, polls, b) && cfg.startBlock <= HeadRun(cfg, polls).confirmed
    ensures forall i :: 0 <= i <= |polls| ==> HeadRun(cfg, polls[..i]).confirmed <= HeadRun(cfg, polls).confirmed
  {
    if polls == [] {
      assert polls[..0] == polls;
    } else {
      var before := polls[..|polls| - 1];
      SteadyDeliversOnce(cfg, before, b);
      forall i | 0 <= i <= |polls|
        ensures HeadRun(cfg, polls[..i]).confirmed <= HeadRun(cfg, polls).confirmed
      {
        if i < |polls| {
          assert polls[..i] == before[..i];
        } else {
          assert polls[..i] == polls;
        }
      }
    }
  }

  /** With one confirmation, an update that reads on moves both heads on by the rules of `set_head`. */
  lemma OneConfirmationAdvances(cfg: Config, h: Heads, poll: Poll)
    requires cfg.confirmations == 1 && cfg.startBlock >= 1
    requires cfg.startBlock <= h.confirmed <= h.unconfirmed <= h.confirmed + 1
    ensures var b := Base(h, poll);
            var c, u := NewConfirmed(cfg, b, poll.height), NewUnconfirmed(cfg, b, poll.height);
            Reads(cfg, h, poll) ==> HeadsAccepted(c, u) && b.unconfirmed < u && h.unconfirmed <= u && b.unconfirmed <= c && u == c + 1
  {
  }

  /** With one confirmation every run is steady, with the heads at most one block apart. */
  lemma {:induction false} OneConfirmationIsSteady(cfg: Config, polls: seq<Poll>)
    requires cfg.confirmations == 1
    ensures Steady(cfg, polls)
    ensures var h := HeadRun(cfg, polls); h.confirmed <= h.unconfirmed <= h.confirmed + 1
  {
    if polls != [] {
      OneConfirmationIsSteady(cfg, polls[..|polls| - 1]);
    }
  }

  /** With one confirmation, over every run: the heads stay one block apart at most, the confirmed head never
      falls, and every block after the start block up to the confirmed head is delivered exactly once. */
  lemma EachBlockDeliveredOnce(cfg: Config, polls: seq<Poll>, b: nat)
    requires cfg.confirmations == 1
    ensures var h := HeadRun(cfg, polls);
            && cfg.startBlock <= h.confirmed <= h.unconfirmed <= h.confirmed + 1
            && DeliveredOnce(cfg, polls, b)
            && (forall i :: 0 <= i <= |polls| ==> HeadRun(cfg, polls[..i]).confirmed <= h.confirmed)
  {
    OneConfirmationIsSteady(cfg, polls);
    SteadyDeliversOnce(cfg, polls, b);
  }

  // Other numbers of confirmations

  /** Nothing is ever accepted: updates read no blocks at all, or too few to confirm one. */
  predicate Stuck(cfg: Config) { cfg.chunk == 0 || cfg.startBlock + cfg.chunk <= cfg.confirmations }

  lemma {:induction false} StuckDeliversNothing(cfg: Config, polls: seq<Poll>, b: nat)
    requires Stuck(cfg)
    ensures HeadRun(cfg, polls) == Heads(cfg.startBlock, cfg.startBlock) && Deliveries(cfg, polls, b) == 0
  {
    if polls != [] {
      StuckDeliversNothing(cfg, polls[..|polls| - 1], b);
    }
  }

  lemma RunSnoc(cfg: Config, polls: seq<Poll>, poll: Poll, b: nat)
    ensures HeadRun(cfg, polls + [poll]) == Advance(cfg, HeadRun(cfg, polls), poll)
    ensures Deliveries(cfg, polls + [poll], b) ==
            Deliveries(cfg, polls, b) + (if Delivers(cfg, HeadRun(cfg, polls), poll, b) then 1 else 0)
  {
    assert (polls + [poll])[..|polls|] == polls;
  }

  /** Without confirmations blocks are delivered and the heads refused, so they are delivered again. */
  lemma NoConfirmationRepeats(cfg: Config, poll: Poll)
    requires cfg.confirmations == 0 && cfg.chunk >= 1 && poll == Poll(false, cfg.startBlock + 1)
    ensures Deliveries(cfg, [poll, poll], cfg.startBlock + 1) == 2
  {
    assert [] + [poll] == [poll] && [poll] + [poll] == [poll, poll];
    RunSnoc(cfg, [], poll, cfg.startBlock + 1);
    RunSnoc(cfg, [poll], poll, cfg.startBlock + 1);
  }

  /** The polls followed by one for each of the k blocks after u. */
  function Climb(polls: seq<Poll>, u: nat, k: nat): seq<Poll> {
    if k == 0 then polls else Climb(polls, u, k - 1) + [Poll(false, u + k)]
  }

  /** The next block takes the confirmed head along, and delivers that block. */
  lemma ClimbOne(cfg: Config, polls: seq<Poll>, u: nat, b: nat)
    requires cfg.chunk >= 1 && 1 <= cfg.confirmations < u && HeadRun(cfg, polls) == Heads(u - cfg.confirmations, u)
    ensures var more := polls + [Poll(false, u + 1)];
            && HeadRun(cfg, more) == Heads(u + 1 - cfg.confirmations, u + 1)
            && Deliveries(cfg, more, b) == Deliveries(cfg, polls, b) + (if b == u + 1 - cfg.confirmations then 1 else 0)
  {
    RunSnoc(cfg, polls, Poll(false, u + 1), b);
  }

  lemma {:induction false} ClimbDelivers(cfg: Config, polls: seq<Poll>, u: nat, k: nat, b: nat)
    requires cfg.chunk >= 1 && 1 <= cfg.confirmations < u && HeadRun(cfg, polls) == Heads(u - cfg.confirmations, u)
    ensures HeadRun(cfg, Climb(polls, u, k)) == Heads(u + k - cfg.confirmations, u + k)
    ensures Deliveries(cfg, Climb(polls, u, k), b) ==
            Deliveries(cfg, polls, b) + (if u < b + cfg.confirmations <= u + k then 1 else 0)
  {
    if k > 0 {
      ClimbDelivers(cfg, polls, u, k - 1, b);
      ClimbOne(cfg, Climb(polls, u, k - 1), u + k - 1, b);
    }
  }

  /** The height of the first poll that is accepted. */
  function FirstHeight(cfg: Config): nat {
    if cfg.confirmations <= cfg.startBlock then cfg.startBlock + 1 else cfg.confirmations + 1
  }

  lemma FirstAccepted(cfg: Config)
    requires cfg.confirmations >= 2 && !Stuck(cfg)
    ensures HeadRun(cfg, [Poll(false, FirstHeight(cfg))]) == Heads(FirstHeight(cfg) - cfg.confirmations, FirstHeight(cfg))
  {
    var start := [Poll(false, FirstHeight(cfg))];
    assert [] + start == start;
    RunSnoc(cfg, [], start[0], 0);
  }

  /** For two or more confirmations that are not stuck: climb until the confirmed head has passed that number. */
  lemma ClimbUp(cfg: Config, first: nat) returns (polls: seq<Poll>)
    requires cfg.confirmations >= 2 && !Stuck(cfg) && first == FirstHeight(cfg)
    ensures HeadRun(cfg, polls) == Heads(first, first + cfg.confirmations) && Deliveries(cfg, polls, first) >= 1
  {
    FirstAccepted(cfg);
    polls := Climb([Poll(false, first)], first, cfg.confirmations);
    ClimbDelivers(cfg, [Poll(false, first)], first, cfg.confirmations, first);
  }

  /** Then fall back onto a shorter chain: the confirmed head falls. */
  lemma DropBack(cfg: Config, polls: seq<Poll>, c: nat)
    requires cfg.chunk >= 1 && 2 <= cfg.confirmations <= c && HeadRun(cfg, polls) == Heads(c, c + cfg.confirmations)
    ensures Falls(cfg, polls, Poll(true, c + 1))
    ensures var more := polls + [Poll(true, c + 1)];
            && HeadRun(cfg, more) == Heads(c + 1 - cfg.confirmations, c + 1)
            && Deliveries(cfg, more, c) >= Deliveries(cfg, polls, c)
  {
    RunSnoc(cfg, polls, Poll(true, c + 1), c);
  }

  /** Climbing again delivers its block again. */
  lemma FallAndClimbAgain(cfg: Config) returns (falling: seq<Poll>, poll: Poll, polls: seq<Poll>)
    requires cfg.confirmations >= 2 && !Stuck(cfg)
    ensures Falls(cfg, falling, poll) && Deliveries(cfg, polls, FirstHeight(cfg)) >= 2
  {
    var first := FirstHeight(cfg);
    falling := ClimbUp(cfg, first);
    poll := Poll(true, first + 1);
    DropBack(cfg, falling, first);
    polls := Climb(falling + [poll], first + 1, cfg.confirmations - 1);
    ClimbDelivers(cfg, falling + [poll], first + 1, cfg.confirmations - 1, first);
  }

  /** Every run delivers every block once. */
  ghost predicate ExactlyOnce(cfg: Config) {
    forall polls, b :: DeliveredOnce(cfg, polls, b)
  }

  predicate DeliveredTwice(cfg: Config, polls: seq<Poll>, b: nat) { Deliveries(cfg, polls, b) >= 2 }

  /** No run delivers a block twice. */
  ghost predicate NeverTwice(cfg: Config) {
    forall polls, b :: !DeliveredTwice(cfg, polls, b)
  }

  /** Whatever the configuration: every run delivers each block exactly once if and only if one confirmation is
      required or nothing is ever accepted; in all other configurations some run even delivers a block twice. */
  lemma ExactlyOnceIff(cfg: Config)
    ensures ExactlyOnce(cfg) <==> cfg.confirmations == 1 || Stuck(cfg)
    ensures NeverTwice(cfg) <==> cfg.confirmations == 1 || Stuck(cfg)
  {
    if cfg.confirmations == 1 || Stuck(cfg) {
      forall polls, b
        ensures DeliveredOnce(cfg, polls, b)
      {
        if cfg.confirmations == 1 {
          EachBlockDeliveredOnce(cfg, polls, b);
        } else {
          StuckDeliversNothing(cfg, polls, b);
        }
      }
      assert forall polls, b :: DeliveredOnce(cfg, polls, b) ==> !DeliveredTwice(cfg, polls, b);
    } else {
      var polls, b := SomeRunRepeats(cfg);
      assert DeliveredTwice(cfg, polls, b) && !DeliveredOnce(cfg, polls, b);
    }
  }

  lemma SomeRunRepeats(cfg: Config) returns (polls: seq<Poll>, b: nat)
    requires cfg.confirmations != 1 && !Stuck(cfg)
    ensures DeliveredTwice(cfg, polls, b)
  {
    if cfg.confirmations == 0 {
      var poll := Poll(false, cfg.startBlock + 1);
      NoConfirmationRepeats(cfg, poll);
      polls, b := [poll, poll], cfg.startBlock + 1;
    } else {
      b := FirstHeight(cfg);
      var _, _, run := FallAndClimbAgain(cfg);
      polls := run;
    }
  }

  /** Exactly when an update lowers the confirmed head: it reads on although the new unconfirmed head is less
      than the required number of confirmations ahead. */
  lemma LowersConfirmedHeadIff(cfg: Config, h: Heads, poll: Poll)
    ensures var b := Base(h, poll);
            var u := NewUnconfirmed(cfg, b, poll.height);
            Advance(cfg, h, poll).confirmed < h.confirmed
            <==> 1 <= cfg.confirmations < u < h.confirmed + cfg.confirmations && b.unconfirmed < u
  {
  }

  predicate Falls(cfg: Config, polls: seq<Poll>, poll: Poll) {
    Advance(cfg, HeadRun(cfg, polls), poll).confirmed < HeadRun(cfg, polls).confirmed
  }

  /** No update of any run lowers the confirmed head. */
  ghost predicate NeverFalls(cfg: Config) {
    forall polls, poll :: !Falls(cfg, polls, poll)
  }

  /** Without confirmations the new heads are equal, and never accepted. */
  lemma {:induction false} NoConfirmationStays(cfg: Config, polls: seq<Poll>)
    requires cfg.confirmations == 0
    ensures HeadRun(cfg, polls) == Heads(cfg.startBlock, cfg.startBlock)
  {
    if polls != [] {
      NoConfirmationStays(cfg, polls[..|polls| - 1]);
    }
  }

  /** Whatever the configuration: the confirmed head is safe on every run if and only if at most one confirmation
      is required or nothing is ever accepted. */
  lemma ConfirmedHeadNeverFallsIff(cfg: Config)
    ensures NeverFalls(cfg) <==> cfg.confirmations <= 1 || Stuck(cfg)
  {
    if cfg.confirmations <= 1 || Stuck(cfg) {
      forall polls, poll
        ensures !Falls(cfg, polls, poll)
      {
        if cfg.confirmations == 1 {
          OneConfirmationIsSteady(cfg, polls);
        } else if cfg.confirmations == 0 {
          NoConfirmationStays(cfg, polls);
        } else {
          StuckDeliversNothing(cfg, polls, 0);
        }
      }
    } else {
      var falling, poll, _ := FallAndClimbAgain(cfg);
    }
  }

  /** With two confirmations a reorganisation onto a shorter chain makes block 11 delivered twice. */
  lemma TwoConfirmationsDeliverTwice()
    ensures var cfg := Config(2, 100000, 10);
            Deliveries(cfg, [Poll(false, 13), Poll(true, 12), Poll(false, 13)], 11) == 2
  {
    var cfg := Config(2, 100000, 10);
    var p1 := [Poll(false, 13)];
    var p2 := p1 + [Poll(true, 12)];
    var p3 := p2 + [Poll(false, 13)];
    assert p1[..0] == [] && p2[..1] == p1 && p3[..2] == p2;
    assert HeadRun(cfg, p1) == Heads(11, 13) && Deliveries(cfg, p1, 11) == 1;
    assert HeadRun(cfg, p2) == Heads(10, 12) && Deliveries(cfg, p2, 11) == 1;
    assert p3 == [Poll(false, 13), Poll(true, 12), Poll(false, 13)];
  }
}
