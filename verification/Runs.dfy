/** Whole runs of a server: local commands and lines from peers, in any order. */
module Runs {
  import opened Text
  import opened ChannelState
  import opened NetState
  import opened Peer

  datatype Happening = Local(cmd: Cmd) | Line(w: World, text: string)

  /** None: the server has stopped at an exception or at memory that is not there, or the line
      is one whose effect is not modelled. */
  function Next(n: Net, h: Happening): Option<Net> {
    match h
    case Local(cmd) => Step(n, cmd)
    case Line(w, text) => match Feed(w, n, text) case Took(n') => Some(n') case _ => None
  }

  function LapsesOf(n: Net, h: Happening): Lapses {
    match h
    case Local(cmd) => NO_LAPSE.(empties := Empties(n, cmd), orphans := Orphans(n, cmd))
    case Line(_, text) => LineLapses(n, text)
  }

  function Run(n: Net, hs: seq<Happening>): Option<Net>
    decreases |hs|
  {
    if |hs| == 0 then Some(n)
    else match Next(n, hs[0]) case None => None case Some(n') => Run(n', hs[1..])
  }

  /** What went wrong somewhere in a run. */
  function RunLapses(n: Net, hs: seq<Happening>): Lapses
    decreases |hs|
  {
    if |hs| == 0 then NO_LAPSE
    else
      var now := LapsesOf(n, hs[0]);
      match Next(n, hs[0])
      case None => now
      case Some(n') =>
        var later := RunLapses(n', hs[1..]);
        Lapses(now.strays || later.strays, now.clashes || later.clashes, now.empties || later.empties,
               now.repeats || later.repeats, now.orphans || later.orphans)
  }

  /** One step: the state stays coherent, and each invariant is lost exactly by its lapse. */
  lemma NextKeeps(n: Net, h: Happening)
    requires Coherent(n) && Next(n, h).Some?
    ensures KeptBut(n, Next(n, h).value, LapsesOf(n, h))
  {
    hide Coherent;
    hide KeptBut;
    hide Feed;
    hide Step;
    hide LineLapses;
    hide Empties;
    hide Orphans;
    match h
    case Local(cmd) => StepKeeps(n, cmd);
    case Line(w, text) => FeedKeeps(w, n, text);
  }

  /** Over a run every invariant lasts as long as its lapse does not occur. */
  ghost predicate LastsUnless(n: Net, n': Net, l: Lapses) {
    Coherent(n') &&
    (RanksWithin(n) && !l.strays ==> RanksWithin(n')) &&
    (ExclusiveRanks(n) && !l.clashes ==> ExclusiveRanks(n')) &&
    (NoEmptyChannel(n) && !l.empties ==> NoEmptyChannel(n')) &&
    (NoEmptyChannel(n) && DistinctMasks(n) && !l.empties && !l.repeats ==> DistinctMasks(n')) &&
    (NoneOrphaned(n) && !l.orphans ==> NoneOrphaned(n'))
  }

  lemma {:induction false} RunKeeps(n: Net, hs: seq<Happening>)
    requires Coherent(n) && Run(n, hs).Some?
    ensures LastsUnless(n, Run(n, hs).value, RunLapses(n, hs))
    decreases |hs|
  {
    hide Coherent;
    hide RanksWithin;
    hide ExclusiveRanks;
    hide NoEmptyChannel;
    hide DistinctMasks;
    hide NoneOrphaned;
    hide Next;
    hide LapsesOf;
    if |hs| > 0 {
      NextKeeps(n, hs[0]);
      RunKeeps(Next(n, hs[0]).value, hs[1..]);
    }
  }

  /** A rank is only left to nobody after one was given to somebody outside. */
  lemma {:induction false} OrphansNeedStrays(n: Net, hs: seq<Happening>)
    requires Coherent(n) && RanksWithin(n) && !RunLapses(n, hs).strays
    ensures !RunLapses(n, hs).orphans
    decreases |hs|
  {
    hide Coherent;
    hide RanksWithin;
    hide Next;
    if |hs| > 0 {
      OrphanIsOutside(n, hs[0]);
      hide LapsesOf;
      if Next(n, hs[0]).Some? {
        NextKeeps(n, hs[0]);
        OrphansNeedStrays(Next(n, hs[0]).value, hs[1..]);
      }
    }
  }

  lemma OrphanIsOutside(n: Net, h: Happening)
    requires RanksWithin(n)
    ensures !LapsesOf(n, h).orphans
  {
    hide RankedOutside;
    hide Tokens;
    forall k ensures !RankedOutside(n, k) { MembersLeaveNothing(n, k); }
  }

  /** Every state reachable from the empty tables, by any mix of local commands and peer lines:
      u is in c's members exactly when c is in u's channels, both tables are keyed by the
      lower-cased names of their entries, and no rank stands under a key that is nobody's. Ranks
      lie within the members, ranks are exclusive, channels are non-empty, masks distinct, and
      rank pointers lead to users of the table, as long as the lapse that breaks each has not
      occurred; the last lapse does not occur before the first. */
  lemma Reachable(hs: seq<Happening>)
    requires Run(NOTHING, hs).Some?
    ensures var n, l := Run(NOTHING, hs).value, RunLapses(NOTHING, hs);
            Linked(n) && Keyed(n) && RanksKnown(n) &&
            (!l.strays ==> RanksWithin(n)) && (!l.clashes ==> ExclusiveRanks(n)) &&
            (!l.empties ==> NoEmptyChannel(n) && (!l.repeats ==> DistinctMasks(n))) &&
            (!l.orphans ==> NoneOrphaned(n)) && (!l.strays ==> !l.orphans)
  {
    forall x, d ensures Joined(NOTHING, x, d) <==> Member(NOTHING, x, d) {}
    hide Run;
    hide RunLapses;
    hide Linked;
    RunKeeps(NOTHING, hs);
    if !RunLapses(NOTHING, hs).strays { OrphansNeedStrays(NOTHING, hs); }
  }

  /** Local commands alone: nothing but a KICK of the last member goes wrong, and where ranks are
      held by members none is left to nobody. */
  lemma {:induction false} LocalRunsLapse(n: Net, hs: seq<Happening>)
    requires forall h :: h in hs ==> h.Local?
    ensures var l := RunLapses(n, hs);
            !l.strays && !l.clashes && !l.repeats && (Coherent(n) && RanksWithin(n) ==> !l.orphans)
    ensures (forall h :: h in hs ==> !h.cmd.CKick?) ==> !RunLapses(n, hs).empties
    decreases |hs|
  {
    hide Step;
    hide Orphans;
    hide Coherent;
    hide RanksWithin;
    if |hs| > 0 {
      assert hs[0] in hs;
      if Next(n, hs[0]).Some? { LocalRunsLapse(Next(n, hs[0]).value, hs[1..]); }
    }
    if Coherent(n) && RanksWithin(n) && !RunLapses(n, hs).strays { OrphansNeedStrays(n, hs); }
  }

  /** The lines of a peer alone. */
  lemma {:induction false} LinesAreRuns(w: World, n: Net, lines: seq<string>)
    ensures FeedAll(w, n, lines).Took? <==> Run(n, AsRun(w, lines)).Some?
    ensures FeedAll(w, n, lines).Took? ==> Run(n, AsRun(w, lines)).value == FeedAll(w, n, lines).net
    decreases |lines|
  {
    hide Feed;
    if lines != [] {
      assert AsRun(w, lines)[1..] == AsRun(w, lines[1..]);
      if Feed(w, n, lines[0]).Took? { LinesAreRuns(w, Feed(w, n, lines[0]).net, lines[1..]); }
    }
  }

  function AsRun(w: World, lines: seq<string>): seq<Happening> {
    seq(|lines|, i requires 0 <= i < |lines| => Line(w, lines[i]))
  }

  /** Whatever lines a peer sends, well-formed or not and in any order: if they are taken at
      all, memberships and table keys hold. */
  lemma PeerKeepsCoherent(w: World, n: Net, lines: seq<string>)
    requires Coherent(n) && FeedAll(w, n, lines).Took?
    ensures LastsUnless(n, FeedAll(w, n, lines).net, RunLapses(n, AsRun(w, lines)))
  {
    hide LastsUnless;
    LinesAreRuns(w, n, lines);
    RunKeeps(n, AsRun(w, lines));
  }
}
