/** The retry policy of one command: what each failed attempt leads to. */
module Retry {
  import opened Bytes
  import opened Bot
  import opened Entries

  const MAX_RETRIES: nat := 6
  const RETRY_DELAY_MS: nat := 500
  const BECOMING_READY_MAX_WALL_MS: nat := 30000

  /** Sense key, Additional Sense Code and its qualifier. */
  datatype Sense = Sense(key: byte, asc: byte, ascq: byte)

  const NO_SENSE := Sense(0xff, 0, 0)

  predicate MediumNotPresent(s: Sense) { s.key == 0x02 && s.asc == 0x3a }
  predicate MediumMayHaveChanged(s: Sense) { s.asc == 0x28 && s.ascq == 0x00 }
  predicate BecomingReady(s: Sense) { s.key == 0x02 && s.asc == 0x04 }
  predicate UnitAttention(s: Sense) { s.key == 0x06 }
  predicate CopyProtection(s: Sense) { s.key == 0x05 && s.asc == 0x6f }
  predicate IllegalOrProtected(s: Sense) { s.key == 0x05 || s.key == 0x07 }

  /** One pass of the loop: the attempt's return code, the sense read after it
      (NO_SENSE without one), how long the drive had been becoming ready when the
      clock was read, and whether the drive took the CBW. */
  datatype Round = Round(rc: Rc, sense: Sense, elapsed: nat, taken: bool)

  /** The loop's variables between two passes. */
  datatype Going = Going(attempt: nat, becoming: bool, notReady: bool, neverSent: nat)

  datatype Judged = Done(status: LaserStatus) | On(g: Going)

  /** The refusals that copy protection tells apart. */
  function CopyProtectionStatus(ascq: byte): LaserStatus {
    if ascq == 0x03 then Scrambled
    else if ascq <= 0x02 then NoKey
    else if ascq <= 0x05 then Region
    else Refused
  }

  /** The attempt is spent: the next one, or the verdict on all of them. */
  function Spend(g: Going): Judged {
    if g.attempt < MAX_RETRIES then On(g.(attempt := g.attempt + 1))
    else Done(if g.neverSent == g.attempt then LaserStatus.NoDevice else IO)
  }

  /** One pass of the loop. */
  function Judge(idempotent: bool, g0: Going, r: Round): Judged {
    var g := g0.(neverSent := g0.neverSent + if r.rc.NotSent? then 1 else 0);
    var s := r.sense;
    if r.rc.Passed? then Done(OK)
    else if r.rc.Absent? then Done(LaserStatus.NoDevice)
    else if MediumNotPresent(s) then Done(MediaGone)
    else if MediumMayHaveChanged(s) then
      if g.becoming || g.notReady then On(g.(becoming := false, notReady := false))
      else Done(MediaGone)
    else if CopyProtection(s) then Done(CopyProtectionStatus(s.ascq))
    else if IllegalOrProtected(s) then Done(Refused)
    else if !idempotent && !r.rc.NotSent? then Done(IO)
    else if BecomingReady(s) then
      if r.elapsed < BECOMING_READY_MAX_WALL_MS then On(g.(becoming := true))
      else Spend(g.(becoming := true))
    else Spend(g)
  }

  /** The loop after some passes, on a drive that starts out `notReady` or not. */
  function Replay(idempotent: bool, notReady: bool, rounds: seq<Round>): Judged {
    if rounds == [] then On(Going(1, false, notReady, 0))
    else
      var n := |rounds| - 1;
      match Replay(idempotent, notReady, rounds[..n])
      case Done(s) => Done(s)
      case On(g) => Judge(idempotent, g, rounds[n])
  }

  /** Passes the loop really makes: it goes on after all but the last, and only a
      CHECK CONDITION has a sense to read. */
  predicate IsRun(idempotent: bool, notReady: bool, rounds: seq<Round>) {
    rounds == [] ||
    (var n := |rounds| - 1;
     && IsRun(idempotent, notReady, rounds[..n])
     && Replay(idempotent, notReady, rounds[..n]).On?
     && (!rounds[n].rc.Failed? ==> rounds[n].sense == NO_SENSE))
  }

  // ------------------------------------------------------------------ counts

  /** Attempts whose CBW may have reached the drive. */
  function Heard(rounds: seq<Round>): nat {
    if rounds == [] then 0
    else Heard(rounds[..|rounds| - 1]) + if rounds[|rounds| - 1].rc.NotSent? then 0 else 1
  }

  /** Attempts whose CBW the drive took. */
  function Delivered(rounds: seq<Round>): nat {
    if rounds == [] then 0
    else Delivered(rounds[..|rounds| - 1]) + if rounds[|rounds| - 1].taken then 1 else 0
  }

  /** Attempts whose CBW the drive took although libusb reported a failure. */
  function Late(rounds: seq<Round>): nat {
    if rounds == [] then 0
    else
      var last := rounds[|rounds| - 1];
      Late(rounds[..|rounds| - 1]) + if last.rc.NotSent? && last.taken then 1 else 0
  }

  /** Becoming-ready episodes, uncounted waits, waits of the current episode, and
      immediate retries after 28h/00h. */
  datatype Tally = Tally(episodes: nat, waits: nat, episodeWaits: nat, flips: nat)

  function Count(idempotent: bool, notReady: bool, rounds: seq<Round>): Tally {
    if rounds == [] then Tally(0, 0, 0, 0)
    else
      var n := |rounds| - 1;
      var t := Count(idempotent, notReady, rounds[..n]);
      match Replay(idempotent, notReady, rounds[..n])
      case Done(_) => t
      case On(g) =>
        match Judge(idempotent, g, rounds[n])
        case Done(_) => t
        case On(h) => Counted(t, g, h)
  }

  /** One pass that takes the loop from `g` to `h`. */
  function Counted(t: Tally, g: Going, h: Going): Tally {
    var u := if h.becoming && !g.becoming then t.(episodes := t.episodes + 1, episodeWaits := 0) else t;
    if h.attempt > g.attempt then u
    else if h.becoming then u.(waits := u.waits + 1, episodeWaits := u.episodeWaits + 1)
    else u.(flips := u.flips + 1)
  }

  lemma CountedOneMore(idempotent: bool, notReady: bool, rounds: seq<Round>, r: Round, g: Going, h: Going)
    requires IsRun(idempotent, notReady, rounds) && Replay(idempotent, notReady, rounds) == On(g)
    requires Judge(idempotent, g, r) == On(h) && (!r.rc.Failed? ==> r.sense == NO_SENSE)
    ensures IsRun(idempotent, notReady, rounds + [r]) && Replay(idempotent, notReady, rounds + [r]) == On(h)
    ensures Count(idempotent, notReady, rounds + [r]) == Counted(Count(idempotent, notReady, rounds), g, h)
    ensures ClockRuns(idempotent, notReady, rounds + [r]) <==>
      && ClockRuns(idempotent, notReady, rounds)
      && (g.becoming ==> r.elapsed >= RETRY_DELAY_MS * Count(idempotent, notReady, rounds).episodeWaits)
  {
    assert (rounds + [r])[..|rounds|] == rounds;
  }

  /** What is left of the flag after some rounds: it is lowered by the first immediate
      retry, by nothing else, and never raised. */
  predicate Lowered(idempotent: bool, notReady: bool, rounds: seq<Round>, now: bool) {
    now <==> notReady && Count(idempotent, notReady, rounds).flips == 0
  }

  /** The clock advances by at least each sleep: a pass that finds the drive still
      becoming ready reads at least what the waits of this episode took. */
  predicate ClockRuns(idempotent: bool, notReady: bool, rounds: seq<Round>) {
    rounds == [] ||
    (var n := |rounds| - 1;
     && ClockRuns(idempotent, notReady, rounds[..n])
     && (match Replay(idempotent, notReady, rounds[..n])
         case Done(_) => true
         case On(g) =>
           g.becoming ==> rounds[n].elapsed >= RETRY_DELAY_MS * Count(idempotent, notReady, rounds[..n]).episodeWaits))
  }

  // ----------------------------------------------------------------- lemmas

  /** A pass that goes on spends one attempt or none, and one that never left spends
      one. */
  lemma JudgeGoesOn(idempotent: bool, g: Going, r: Round)
    requires Judge(idempotent, g, r).On? && (!r.rc.Failed? ==> r.sense == NO_SENSE)
    ensures var h := Judge(idempotent, g, r).g;
      && (h.attempt == g.attempt || (h.attempt == g.attempt + 1 && h.attempt <= MAX_RETRIES))
      && h.neverSent == g.neverSent + (if r.rc.NotSent? then 1 else 0)
      && (r.rc.NotSent? ==> h.attempt == g.attempt + 1)
  {
  }

  /** Every attempt that failed before its CBW left was a counted one, so the
      counts are equal only if all of them failed that way. */
  lemma {:induction false} NeverSentIsCounted(idempotent: bool, notReady: bool, rounds: seq<Round>)
    requires IsRun(idempotent, notReady, rounds) && Replay(idempotent, notReady, rounds).On?
    ensures var g := Replay(idempotent, notReady, rounds).g;
      var t := Count(idempotent, notReady, rounds);
      && 1 <= g.attempt <= MAX_RETRIES && g.neverSent < g.attempt
      && Heard(rounds) + g.neverSent == |rounds|
      && |rounds| == g.attempt - 1 + t.waits + t.flips
  {
    if rounds != [] {
      var n := |rounds| - 1;
      NeverSentIsCounted(idempotent, notReady, rounds[..n]);
      JudgeGoesOn(idempotent, Replay(idempotent, notReady, rounds[..n]).g, rounds[n]);
    }
  }

  /** The loop's own flag is that. */
  lemma {:induction false} FlagWhileGoing(idempotent: bool, notReady: bool, rounds: seq<Round>)
    requires IsRun(idempotent, notReady, rounds) && Replay(idempotent, notReady, rounds).On?
    ensures Lowered(idempotent, notReady, rounds, Replay(idempotent, notReady, rounds).g.notReady)
  {
    if rounds != [] {
      var n := |rounds| - 1;
      FlagWhileGoing(idempotent, notReady, rounds[..n]);
      JudgeOnFlag(idempotent, Replay(idempotent, notReady, rounds[..n]).g, rounds[n]);
    }
  }

  lemma JudgeOnFlag(idempotent: bool, g: Going, r: Round)
    requires Judge(idempotent, g, r).On?
    ensures var h := Judge(idempotent, g, r).g;
      if h.attempt == g.attempt && !h.becoming then !h.notReady else h.notReady == g.notReady
  {
  }

  /** And the round that ends the loop leaves it alone. */
  lemma FlagAtEnd(idempotent: bool, notReady: bool, rounds: seq<Round>, g: Going, r: Round)
    requires IsRun(idempotent, notReady, rounds) && Replay(idempotent, notReady, rounds) == On(g)
    requires Judge(idempotent, g, r).Done?
    ensures Lowered(idempotent, notReady, rounds + [r], g.notReady)
  {
    FlagWhileGoing(idempotent, notReady, rounds);
    assert (rounds + [r])[..|rounds|] == rounds;
  }

  /** A command that must not be repeated goes on only while its CBW never left,
      or once, after a 28h/00h met with `notReady` raised. */
  lemma {:induction false} HeardWhileGoing(notReady: bool, rounds: seq<Round>)
    requires IsRun(false, notReady, rounds) && Replay(false, notReady, rounds).On?
    ensures var g := Replay(false, notReady, rounds).g;
      && !g.becoming && (g.notReady ==> notReady)
      && Heard(rounds) == (if notReady && !g.notReady then 1 else 0)
    ensures Heard(rounds) > 0 ==> exists i :: 0 <= i < |rounds| && MediumMayHaveChanged(rounds[i].sense)
  {
    if rounds != [] {
      var n := |rounds| - 1;
      HeardWhileGoing(notReady, rounds[..n]);
      if Heard(rounds[..n]) > 0 {
        var i :| 0 <= i < n && MediumMayHaveChanged(rounds[..n][i].sense);
        assert MediumMayHaveChanged(rounds[i].sense);
      } else if Heard(rounds) > 0 {
        assert MediumMayHaveChanged(rounds[n].sense);
      }
    }
  }

  lemma {:induction false} DeliveredBound(rounds: seq<Round>)
    ensures Delivered(rounds) <= Heard(rounds) + Late(rounds)
  {
    if rounds != [] {
      DeliveredBound(rounds[..|rounds| - 1]);
    }
  }

  /** At-most-once delivery: whatever the drive answers, a non-idempotent command
      is taken once, or twice when 28h/00h answered it while `notReady` was up, and
      besides only when libusb reports the failure of a CBW that arrived. */
  lemma AtMostOnce(notReady: bool, rounds: seq<Round>)
    requires IsRun(false, notReady, rounds)
    ensures Delivered(rounds) <= 1 + Late(rounds)
      || (Delivered(rounds) <= 2 + Late(rounds) && notReady
          && exists i :: 0 <= i < |rounds| - 1 && MediumMayHaveChanged(rounds[i].sense))
  {
    DeliveredBound(rounds);
    if rounds != [] {
      var n := |rounds| - 1;
      HeardWhileGoing(notReady, rounds[..n]);
      if Heard(rounds) > 1 {
        var i :| 0 <= i < n && MediumMayHaveChanged(rounds[..n][i].sense);
        assert MediumMayHaveChanged(rounds[i].sense);
      }
    }
  }

  /** Two rounds of a command, both taken by the drive. */
  lemma TwoRounds(notReady: bool, first: Round, second: Round, g: Going) returns (rounds: seq<Round>)
    requires Judge(false, Going(1, false, notReady, 0), first) == On(g) && first.taken && second.taken
    requires (!first.rc.Failed? ==> first.sense == NO_SENSE) && (!second.rc.Failed? ==> second.sense == NO_SENSE)
    ensures rounds == [first, second] && IsRun(false, notReady, rounds) && Delivered(rounds) == 2
    ensures Late(rounds) == (if first.rc.NotSent? then 1 else 0) + (if second.rc.NotSent? then 1 else 0)
  {
    rounds := [first, second];
    var once := [first];
    assert once[..|once| - 1] == [] && rounds[..|rounds| - 1] == once;
    assert Replay(false, notReady, []) == On(Going(1, false, notReady, 0));
    assert Replay(false, notReady, once) == On(g);
    assert Delivered([]) == 0 && Delivered(once) == 1 && Late([]) == 0;
    assert IsRun(false, notReady, once);
  }

  /** A drive that starts out `notReady` answers 28h/00h and then passes. */
  lemma TwiceWhenNotReady() returns (rounds: seq<Round>)
    ensures IsRun(false, true, rounds) && Delivered(rounds) == 2 && Late(rounds) == 0
  {
    rounds := TwoRounds(true, Round(Failed, Sense(0x06, 0x28, 0x00), 0, true), Round(Passed, NO_SENSE, 0, true),
                        Going(1, false, false, 0));
  }

  /** A CBW arrives whole, and libusb reports an error all the same. */
  lemma TwiceWhenLate(notReady: bool) returns (rounds: seq<Round>)
    ensures IsRun(false, notReady, rounds) && Delivered(rounds) == 2
  {
    rounds := TwoRounds(notReady, Round(NotSent, NO_SENSE, 0, true), Round(Passed, NO_SENSE, 0, true),
                        Going(2, false, notReady, 1));
  }

  /** The promise of one delivery holds of all runs exactly when the drive does not
      start out `notReady` and no transport error comes after the CBW did. */
  lemma OnceExactly(notReady: bool, late: bool)
    ensures !notReady && !late <==>
      forall rounds :: IsRun(false, notReady, rounds) && (late || Late(rounds) == 0) ==> Delivered(rounds) <= 1
  {
    if notReady {
      var rounds := TwiceWhenNotReady();
      assert IsRun(false, notReady, rounds) && Delivered(rounds) > 1;
    } else if late {
      var rounds := TwiceWhenLate(notReady);
      assert IsRun(false, notReady, rounds) && Delivered(rounds) > 1;
    } else {
      forall rounds | IsRun(false, notReady, rounds) && Late(rounds) == 0
        ensures Delivered(rounds) <= 1
      {
        AtMostOnce(notReady, rounds);
      }
    }
  }

  /** What the counts are worth while the loop goes on. */
  lemma {:induction false} TallyWhileGoing(idempotent: bool, notReady: bool, rounds: seq<Round>)
    requires IsRun(idempotent, notReady, rounds) && Replay(idempotent, notReady, rounds).On?
    requires ClockRuns(idempotent, notReady, rounds)
    ensures var g := Replay(idempotent, notReady, rounds).g;
      var t := Count(idempotent, notReady, rounds);
      && t.episodeWaits <= 60
      && t.waits <= 60 * t.episodes
      && (g.becoming ==> t.episodes > 0 && t.waits - t.episodeWaits <= 60 * (t.episodes - 1))
      && t.flips + (if g.becoming then 1 else 0) + (if g.notReady then 1 else 0)
         <= t.episodes + (if notReady then 1 else 0)
  {
    if rounds != [] {
      TallyWhileGoing(idempotent, notReady, rounds[..|rounds| - 1]);
    }
  }

  /** The loop ends: at most six counted attempts, sixty waits and one immediate
      retry per becoming-ready episode, and one more retry for a drive that
      starts out `notReady`. */
  lemma RoundsBounded(idempotent: bool, notReady: bool, rounds: seq<Round>)
    requires IsRun(idempotent, notReady, rounds) && ClockRuns(idempotent, notReady, rounds)
    ensures |rounds| <= 6 + 61 * Count(idempotent, notReady, rounds).episodes
                        + (if notReady then 1 else 0)
  {
    if rounds != [] {
      var prefix := rounds[..|rounds| - 1];
      TallyWhileGoing(idempotent, notReady, prefix);
      NeverSentIsCounted(idempotent, notReady, prefix);
    }
  }

  /** A drive that answers 02h/04h and 28h/00h in turn: neither spends an attempt, so
      the six attempts alone bound nothing. */
  function Alternate(first: bool): Round {
    Round(Failed, if first then Sense(0x02, 0x04, 0x01) else Sense(0x06, 0x28, 0x00), RETRY_DELAY_MS, true)
  }

  /** The loop's variables after `n` such rounds. */
  function Alternated(n: nat, notReady: bool): Going {
    Going(1, n % 2 == 1, notReady && n < 2, 0)
  }

  lemma Alternates(n: nat, notReady: bool)
    ensures Judge(true, Alternated(n, notReady), Alternate(n % 2 == 0)) == On(Alternated(n + 1, notReady))
    ensures Alternate(n % 2 == 0).rc.Failed? && Alternate(n % 2 == 0).elapsed == RETRY_DELAY_MS
  {
  }

  /** And what one of them counts for. */
  lemma AlternationCounts(n: nat, notReady: bool, t: Tally)
    requires t.flips == n / 2 && (n % 2 == 1 ==> t.episodeWaits == 1)
    ensures var u := Counted(t, Alternated(n, notReady), Alternated(n + 1, notReady));
      u.flips == (n + 1) / 2 && (n % 2 == 0 ==> u.episodeWaits == 1)
    ensures Alternated(n, notReady).becoming <==> n % 2 == 1
  {
  }

  lemma NoRounds(idempotent: bool, notReady: bool)
    ensures IsRun(idempotent, notReady, []) && ClockRuns(idempotent, notReady, [])
    ensures Replay(idempotent, notReady, []) == On(Alternated(0, notReady))
    ensures Count(idempotent, notReady, []) == Tally(0, 0, 0, 0)
  {
  }

  lemma {:induction false} AlternationNeverEnds(n: nat, notReady: bool) returns (rounds: seq<Round>)
    ensures |rounds| == n && forall i | 0 <= i < n :: rounds[i] == Alternate(i % 2 == 0)
    ensures IsRun(true, notReady, rounds) && ClockRuns(true, notReady, rounds)
    ensures Replay(true, notReady, rounds) == On(Alternated(n, notReady))
    ensures var t := Count(true, notReady, rounds); t.flips == n / 2 && (n % 2 == 1 ==> t.episodeWaits == 1)
  {
    hide IsRun, ClockRuns, Replay, Count, Judge, Counted, Alternated, Alternate;
    rounds := [];
    NoRounds(true, notReady);
    if n > 0 {
      var before := AlternationNeverEnds(n - 1, notReady);
      var r := Alternate((n - 1) % 2 == 0);
      Alternates(n - 1, notReady);
      AlternationCounts(n - 1, notReady, Count(true, notReady, before));
      CountedOneMore(true, notReady, before, r, Alternated(n - 1, notReady), Alternated(n, notReady));
      rounds := before + [r];
    }
  }

  lemma {:induction false} FlipsOfKeyCommand(notReady: bool, rounds: seq<Round>)
    requires IsRun(false, notReady, rounds)
    ensures Count(false, notReady, rounds).flips <= if notReady then 1 else 0
    ensures Replay(false, notReady, rounds).On? ==>
      var g := Replay(false, notReady, rounds).g;
      !g.becoming && Count(false, notReady, rounds).flips + (if g.notReady then 1 else 0) <= if notReady then 1 else 0
  {
    if rounds != [] {
      FlipsOfKeyCommand(notReady, rounds[..|rounds| - 1]);
    }
  }

  /** 28h/00h is retried once only exactly for commands that must not be repeated:
      any other one may meet it again and again. */
  lemma OnceOnlyExactly(idempotent: bool, notReady: bool)
    ensures !idempotent <==>
      forall rounds :: IsRun(idempotent, notReady, rounds) ==> Count(idempotent, notReady, rounds).flips <= 1
  {
    if idempotent {
      var rounds := AlternationNeverEnds(4, notReady);
      assert IsRun(idempotent, notReady, rounds) && Count(idempotent, notReady, rounds).flips > 1;
    } else {
      forall rounds | IsRun(idempotent, notReady, rounds)
        ensures Count(idempotent, notReady, rounds).flips <= 1
      {
        FlipsOfKeyCommand(notReady, rounds);
      }
    }
  }

  // --------------------------------------------------------------- evidence

  /** What a status says about the last attempt. */
  predicate Evidence(status: LaserStatus, last: Round) {
    var s := last.sense;
    match status
    case OK => last.rc.Passed?
    case MediaGone =>
      && last.rc.Failed?
      && ((s.key == 0x02 && s.asc == 0x3a) || (s.asc == 0x28 && s.ascq == 0x00))
    case Scrambled => last.rc.Failed? && s.key == 0x05 && s.asc == 0x6f && s.ascq == 0x03
    case NoKey => last.rc.Failed? && s.key == 0x05 && s.asc == 0x6f && s.ascq <= 0x02
    case Region => last.rc.Failed? && s.key == 0x05 && s.asc == 0x6f && 0x04 <= s.ascq <= 0x05
    case Refused =>
      && last.rc.Failed?
      && (s.key == 0x07 || (s.key == 0x05 && (s.asc == 0x6f ==> s.ascq > 0x05)))
    case NoDevice => last.rc.Absent? || last.rc.NotSent?
    case IO =>
      && !last.rc.Passed? && !last.rc.Absent? && s.key != 0x05 && s.key != 0x07
      && !(s.key == 0x02 && s.asc == 0x3a) && !(s.asc == 0x28 && s.ascq == 0x00)
    case _ => false
  }

  /** And the other way round, for every sense the drive can report: which ends a command,
      and how, which is waited out, and which is a failure like any other. */
  lemma SenseDecides(idempotent: bool, g: Going, s: Sense, elapsed: nat, taken: bool)
    requires 1 <= g.attempt <= 6
    ensures var j := Judge(idempotent, g, Round(Failed, s, elapsed, taken));
      if s.key == 0x02 && s.asc == 0x3a then j == Done(MediaGone)
      else if s.asc == 0x28 && s.ascq == 0x00 then
        if g.becoming || g.notReady then j == On(Going(g.attempt, false, false, g.neverSent)) else j == Done(MediaGone)
      else if s.key == 0x05 && s.asc == 0x6f then
        j == Done(match s.ascq
                  case 0 => NoKey case 1 => NoKey case 2 => NoKey
                  case 3 => Scrambled
                  case 4 => Region case 5 => Region
                  case _ => Refused)
      else if s.key == 0x05 || s.key == 0x07 then j == Done(Refused)
      else if !idempotent then j == Done(IO)
      else if s.key == 0x02 && s.asc == 0x04 && elapsed < 30000 then
        j == On(Going(g.attempt, true, g.notReady, g.neverSent))
      else if g.attempt < 6 then j.On? && j.g.attempt == g.attempt + 1 && j.g.neverSent == g.neverSent
      else j == Done(if g.neverSent == 6 then LaserStatus.NoDevice else IO)
  {
  }

  /** Every status carries its evidence, in the last attempt. NO_DEVICE from a
      loop that ran out says that none of its six attempts was ever sent; and a
      command that may be repeated is given up only after all six. */
  lemma StatusHasEvidence(idempotent: bool, notReady: bool, rounds: seq<Round>)
    requires IsRun(idempotent, notReady, rounds) && rounds != []
    requires Replay(idempotent, notReady, rounds).Done?
    ensures var status := Replay(idempotent, notReady, rounds).status;
      var last := rounds[|rounds| - 1];
      var t := Count(idempotent, notReady, rounds);
      && Evidence(status, last)
      && (status.NoDevice? && !last.rc.Absent? ==> Heard(rounds) + 6 == |rounds|)
      && (status.IO? ==> Heard(rounds) > 0)
      && (status.IO? && idempotent ==> |rounds| == 6 + t.waits + t.flips)
  {
    NeverSentIsCounted(idempotent, notReady, rounds[..|rounds| - 1]);
  }
}
