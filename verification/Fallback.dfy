/** The transport fallback chain (crates/radin-core/src/fallback.rs). */
module Fallback {
  import opened Common
  import opened Model
  import opened Sorting
  import Text

  const BLOCK_MS := 5_000

  datatype Signal = StateFailed | CircuitOpen | HandshakeFailure

  datatype Report = Report(kind: TransportKind, signal: Signal)

  datatype Block = Block(kind: TransportKind, signal: Signal, since: nat, until: nat)

  datatype Scored = Scored(kind: TransportKind, score: real)

  datatype Chain = Chain(order: seq<TransportKind>, index: nat, blocked: seq<Block>)

  // Looking up the current transport of an empty chain panics.
  predicate Usable(c: Chain) { c.order != [] }

  function Current(c: Chain): TransportKind
    requires Usable(c)
  {
    c.order[Min(c.index, |c.order| - 1)]
  }

  predicate Signalled(reports: seq<Report>, kind: TransportKind) { exists r | r in reports :: r.kind == kind }

  predicate BlockedAt(c: Chain, kind: TransportKind, now: nat) {
    exists b | b in c.blocked :: b.kind == kind && now < b.until
  }

  predicate Advances(c: Chain, reports: seq<Report>, now: nat)
    requires Usable(c)
  {
    Signalled(reports, Current(c)) && !BlockedAt(c, Current(c), now) && c.index + 1 < |c.order|
  }

  function FirstSignal(reports: seq<Report>, kind: TransportKind): Signal {
    if reports == [] then StateFailed
    else if reports[0].kind == kind then reports[0].signal
    else FirstSignal(reports[1..], kind)
  }

  function Observed(c: Chain, reports: seq<Report>, now: nat): Chain
    requires Usable(c)
  {
    if Advances(c, reports, now) then
      c.(index := c.index + 1,
         blocked := c.blocked + [Block(Current(c), FirstSignal(reports, Current(c)), now, now + BLOCK_MS)])
    else c
  }

  function Kinds(scores: seq<Scored>): (r: seq<TransportKind>)
    ensures |r| == |scores| && forall i | 0 <= i < |scores| :: r[i] == scores[i].kind
  {
    seq(|scores|, i requires 0 <= i < |scores| => scores[i].kind)
  }

  function Score(): Scored -> real { (s: Scored) => s.score }

  function Ranked(scores: seq<Scored>): seq<TransportKind> { Kinds(SortDescending(scores, Score())) }

  function WithoutFirstDirect(order: seq<TransportKind>): seq<TransportKind> {
    if order == [] then []
    else if order[0] == Direct then order[1..]
    else [order[0]] + WithoutFirstDirect(order[1..])
  }

  // The first Direct is taken out, and put back last unless another one already is there.
  function DirectLast(order: seq<TransportKind>): seq<TransportKind> {
    if Direct !in order then order else
      var rest := WithoutFirstDirect(order);
      if rest != [] && rest[|rest| - 1] == Direct then rest else rest + [Direct]
  }

  function Reordered(c: Chain, scores: seq<Scored>): Chain {
    var order := DirectLast(Ranked(scores));
    if order == [] then c else c.(order := order, index := 0)
  }

  class FallbackEngine {
    var chain: seq<TransportKind>
    var currentIndex: nat
    var blocked: seq<Block>
    var lastSignals: seq<Report>

    ghost function View(): Chain
      reads this
    {
      Chain(chain, currentIndex, blocked)
    }

    constructor (order: Option<seq<TransportKind>>)
      ensures View() == Chain(if order.Some? then order.value else FALLBACK_ORDER, 0, []) && lastSignals == []
    {
      chain := if order.Some? then order.value else FALLBACK_ORDER;
      currentIndex, blocked, lastSignals := 0, [], [];
    }

    method Observe(reports: seq<Report>, now: nat) returns (moved: Option<TransportKind>)
      requires Usable(View())
      modifies this
      ensures View() == Observed(old(View()), reports, now) && lastSignals == reports
      ensures moved == if Advances(old(View()), reports, now) then Some(Current(View())) else None
    {
      lastSignals := reports;
      var current := chain[Min(currentIndex, |chain| - 1)];
      var failed := exists r | r in reports :: r.kind == current;
      if failed {
        var isBlocked := exists b | b in blocked :: b.kind == current && now < b.until;
        if !isBlocked && currentIndex + 1 < |chain| {
          currentIndex := currentIndex + 1;
          blocked := blocked + [Block(current, FirstSignal(reports, current), now, now + BLOCK_MS)];
          return Some(chain[Min(currentIndex, |chain| - 1)]);
        }
      }
      moved := None;
    }

    method ReorderByScores(scores: seq<Scored>)
      modifies this`chain, this`currentIndex
      ensures View() == Reordered(old(View()), scores)
    {
      var ordered := Kinds(SortDescending(scores, Score()));
      if Direct in ordered {
        var pos := 0;
        while ordered[pos] != Direct
          invariant 0 <= pos < |ordered| && Direct !in ordered[..pos]
          decreases |ordered| - pos
        {
          assert ordered == ordered[..pos + 1] + ordered[pos + 1..];
          assert ordered[..pos + 1] == ordered[..pos] + [ordered[pos]];
          assert Direct in ordered[pos + 1..];
          pos := pos + 1;
        }
        RemoveAt(ordered, pos);
        var rest := ordered[..pos] + ordered[pos + 1..];
        ordered := if rest != [] && rest[|rest| - 1] == Direct then rest else rest + [Direct];
      }
      if ordered != [] {
        chain := ordered;
        currentIndex := 0;
      }
    }
  }

  /** Moving on records the transport left, what was first reported of it, and five seconds. */
  lemma BlockCarriesSignal(c: Chain, reports: seq<Report>, now: nat)
    requires Usable(c) && Advances(c, reports, now)
    ensures var after := Observed(c, reports, now).blocked;
            && |after| == |c.blocked| + 1 && after[..|c.blocked|] == c.blocked
            && var b := after[|c.blocked|];
            && b.kind == Current(c) && b.since == now && b.until == now + 5_000
            && exists i | 0 <= i < |reports| ::
                 reports[i] == Report(b.kind, b.signal) && forall j | 0 <= j < i :: reports[j].kind != b.kind
  {
    var i := FirstReport(reports, Current(c));
  }

  lemma {:induction false} FirstReport(reports: seq<Report>, kind: TransportKind) returns (i: nat)
    requires Signalled(reports, kind)
    ensures i < |reports| && reports[i] == Report(kind, FirstSignal(reports, kind))
    ensures forall j | 0 <= j < i :: reports[j].kind != kind
  {
    if reports[0].kind == kind {
      i := 0;
    } else {
      i := FirstReport(reports[1..], kind);
      i := i + 1;
    }
  }

  lemma {:induction false} RemoveAt(order: seq<TransportKind>, pos: nat)
    requires pos < |order| && order[pos] == Direct && Direct !in order[..pos]
    ensures WithoutFirstDirect(order) == order[..pos] + order[pos + 1..]
    decreases |order|
  {
    if pos > 0 {
      assert order[0] in order[..pos];
      assert order[1..][..pos - 1] == order[1..pos] && forall k | k in order[1..pos] :: k in order[..pos];
      RemoveAt(order[1..], pos - 1);
      assert order[..pos] == [order[0]] + order[1..pos];
    }
  }

  // ---------------------------------------------------------------------
  // Reordering

  lemma {:induction false} WithoutFirstDirectKeeps(order: seq<TransportKind>)
    requires Direct in order
    ensures multiset(WithoutFirstDirect(order)) == multiset(order) - multiset{Direct}
    decreases |order|
  {
    assert order == [order[0]] + order[1..];
    if order[0] != Direct { WithoutFirstDirectKeeps(order[1..]); }
  }

  function EdgeKinds(order: seq<TransportKind>): seq<TransportKind> {
    if order == [] then []
    else (if order[0] == Direct then [] else [order[0]]) + EdgeKinds(order[1..])
  }

  lemma {:induction false} EdgeKindsConcat(xs: seq<TransportKind>, ys: seq<TransportKind>)
    ensures EdgeKinds(xs + ys) == EdgeKinds(xs) + EdgeKinds(ys)
  {
    if xs == [] {
      assert xs + ys == ys;
    } else {
      assert (xs + ys)[1..] == xs[1..] + ys;
      EdgeKindsConcat(xs[1..], ys);
    }
  }

  lemma {:induction false} EdgeKindsWithout(order: seq<TransportKind>)
    ensures EdgeKinds(WithoutFirstDirect(order)) == EdgeKinds(order)
    decreases |order|
  {
    if order != [] && order[0] != Direct {
      EdgeKindsWithout(order[1..]);
      assert ([order[0]] + WithoutFirstDirect(order[1..]))[1..] == WithoutFirstDirect(order[1..]);
    }
  }

  // Taking the first Direct out still leaves one at the end.
  predicate DirectTwice(order: seq<TransportKind>) {
    var rest := WithoutFirstDirect(order);
    Direct in order && rest != [] && rest[|rest| - 1] == Direct
  }

  lemma DirectLastKeeps(order: seq<TransportKind>)
    ensures multiset(DirectLast(order)) == multiset(order) <==> !DirectTwice(order)
  {
    if Direct in order {
      var rest := WithoutFirstDirect(order);
      WithoutFirstDirectKeeps(order);
      assert Direct in multiset(order);
      assert |multiset(rest)| < |multiset(order)|;
      assert multiset(rest + [Direct]) == multiset(rest) + multiset{Direct} == multiset(order);
    }
  }

  lemma DirectLastOrder(order: seq<TransportKind>)
    requires order != []
    ensures DirectLast(order) != []
    ensures EdgeKinds(DirectLast(order)) == EdgeKinds(order)
    ensures Direct in order ==> DirectLast(order)[|DirectLast(order)| - 1] == Direct
  {
    if Direct in order {
      EdgeKindsWithout(order);
      EdgeKindsConcat(WithoutFirstDirect(order), [Direct]);
      assert [Direct][1..] == [];
    }
  }

  // The ranking behind a reordering: the scored transports, best first, ties as given.
  ghost predicate RankingOf(ranking: seq<Scored>, scores: seq<Scored>) {
    && multiset(ranking) == multiset(scores)
    && Descending(ranking, Score())
    && forall v :: Ties(ranking, Score(), v) == Ties(scores, Score(), v)
  }

  /** The new chain holds the edge transports of a stable ranking by descending score, in its
      order, and Direct last whenever it was scored; a place is lost exactly when the ranking
      holds two Directs, one of them last. */
  lemma ReorderedOrder(c: Chain, scores: seq<Scored>) returns (ranking: seq<Scored>)
    requires scores != []
    ensures RankingOf(ranking, scores)
    ensures Usable(Reordered(c, scores)) && Reordered(c, scores).index == 0 && Reordered(c, scores).blocked == c.blocked
    ensures var order := Reordered(c, scores).order;
            && EdgeKinds(order) == EdgeKinds(Kinds(ranking))
            && (Direct in Kinds(scores) ==> order[|order| - 1] == Direct)
            && (multiset(order) == multiset(Kinds(scores)) <==> !DirectTwice(Kinds(ranking)))
  {
    ranking := SortDescending(scores, Score());
    SortIsStable(scores, Score());
    SortLength(scores, Score());
    SortPermutesKinds(scores);
    assert Direct in Kinds(ranking) <==> Direct in multiset(Kinds(ranking));
    assert Direct in Kinds(scores) <==> Direct in multiset(Kinds(scores));
    DirectLastOrder(Kinds(ranking));
    DirectLastKeeps(Kinds(ranking));
  }

  lemma {:induction false} InsertPermutesKinds(x: Scored, s: seq<Scored>)
    ensures multiset(Kinds(Insert(x, s, Score()))) == multiset(Kinds(s)) + multiset{x.kind}
    decreases |s|
  {
    var r := Insert(x, s, Score());
    if s == [] || Score()(s[0]) <= Score()(x) {
      assert Kinds(r) == [x.kind] + Kinds(s);
    } else {
      InsertPermutesKinds(x, s[1..]);
      assert Kinds(r) == [s[0].kind] + Kinds(Insert(x, s[1..], Score()));
      assert Kinds(s) == [s[0].kind] + Kinds(s[1..]);
    }
  }

  lemma {:induction false} SortPermutesKinds(scores: seq<Scored>)
    ensures multiset(Ranked(scores)) == multiset(Kinds(scores))
  {
    if scores != [] {
      SortPermutesKinds(scores[1..]);
      InsertPermutesKinds(scores[0], SortDescending(scores[1..], Score()));
      assert Kinds(scores) == [scores[0].kind] + Kinds(scores[1..]);
    }
  }

  lemma DistinctKeepsAll(order: seq<TransportKind>)
    requires Text.NoDuplicates(order)
    ensures !DirectTwice(order)
  {
    if Direct in order {
      var pos :| 0 <= pos < |order| && order[pos] == Direct;
      RemoveAt(order, pos);
    }
  }

  /** Distinct kinds are permuted, and an edge transport never stands before one that scored better. */
  lemma ReorderedDistinct(c: Chain, scores: seq<Scored>, x: Scored, y: Scored, i: nat, j: nat)
    requires Text.NoDuplicates(Kinds(scores)) && x in scores && y in scores
    requires var order := Reordered(c, scores).order;
             i < j < |order| && order[i] == x.kind && order[j] == y.kind && y.kind != Direct
    ensures multiset(Reordered(c, scores).order) == multiset(Kinds(scores))
    ensures x.kind != Direct && x.score >= y.score
  {
    var ranking := SortDescending(scores, Score());
    SortIsStable(scores, Score());
    SortLength(scores, Score());
    SortPermutesKinds(scores);
    DistinctPermuted(Ranked(scores), Kinds(scores));
    DistinctKeepsAll(Ranked(scores));
    DirectLastKeeps(Ranked(scores));
    DirectLastOrder(Ranked(scores));
    var m, n := PlaceKept(Ranked(scores), i, j);
    EntryOfKind(ranking, scores, m, x);
    EntryOfKind(ranking, scores, n, y);
    assert Score()(ranking[m]) >= Score()(ranking[n]);
  }

  lemma EntryOfKind(ranking: seq<Scored>, scores: seq<Scored>, m: nat, x: Scored)
    requires Text.NoDuplicates(Kinds(scores)) && multiset(ranking) == multiset(scores)
    requires m < |ranking| && x in scores && ranking[m].kind == x.kind
    ensures ranking[m] == x
  {
    assert ranking[m] in multiset(scores);
    var i :| 0 <= i < |scores| && scores[i] == ranking[m];
    var j :| 0 <= j < |scores| && scores[j] == x;
    assert Kinds(scores)[i] == Kinds(scores)[j];
  }

  lemma DistinctPermuted(xs: seq<TransportKind>, ys: seq<TransportKind>)
    requires multiset(xs) == multiset(ys) && Text.NoDuplicates(ys)
    ensures Text.NoDuplicates(xs)
  {
    forall i, j | 0 <= i < j < |xs| ensures xs[i] != xs[j] {
      if xs[i] == xs[j] {
        TwiceCounted(xs, i, j);
        OnceCounted(ys, xs[i]);
      }
    }
  }

  lemma TwiceCounted(xs: seq<TransportKind>, i: nat, j: nat)
    requires i < j < |xs| && xs[i] == xs[j]
    ensures multiset(xs)[xs[i]] >= 2
  {
    assert xs == xs[..i] + [xs[i]] + xs[i + 1..j] + [xs[j]] + xs[j + 1..];
  }

  lemma {:induction false} OnceCounted(ys: seq<TransportKind>, k: TransportKind)
    requires Text.NoDuplicates(ys)
    ensures multiset(ys)[k] <= 1
  {
    if ys != [] {
      OnceCounted(ys[1..], k);
      assert ys == [ys[0]] + ys[1..];
      if ys[0] == k { assert k !in ys[1..]; assert k !in multiset(ys[1..]); }
    }
  }

  // Places in a chain once one place was taken out.
  lemma PlaceBefore(order: seq<TransportKind>, pos: nat, i: nat) returns (m: nat)
    requires pos < |order| && i < |order| - 1
    ensures m == (if i < pos then i else i + 1) && m < |order|
    ensures (order[..pos] + order[pos + 1..] + [Direct])[i] == order[m]
  {
    m := if i < pos then i else i + 1;
    if i >= pos { assert order[pos + 1..][i - pos] == order[i + 1]; }
  }

  lemma DirectMoved(ranked: seq<TransportKind>) returns (pos: nat)
    requires Text.NoDuplicates(ranked) && Direct in ranked
    ensures pos < |ranked| && ranked[pos] == Direct
    ensures DirectLast(ranked) == ranked[..pos] + ranked[pos + 1..] + [Direct]
  {
    pos :| 0 <= pos < |ranked| && ranked[pos] == Direct;
    RemoveAt(ranked, pos);
    DistinctKeepsAll(ranked);
  }

  // Edge transports keep their relative places.
  lemma PlaceKept(ranked: seq<TransportKind>, i: nat, j: nat) returns (m: nat, n: nat)
    requires Text.NoDuplicates(ranked)
    requires i < j < |DirectLast(ranked)| && DirectLast(ranked)[j] != Direct
    ensures m < n < |ranked| && ranked[m] == DirectLast(ranked)[i] && ranked[n] == DirectLast(ranked)[j]
    ensures DirectLast(ranked)[i] != Direct
  {
    m, n := i, j;
    if Direct in ranked {
      var pos := DirectMoved(ranked);
      m := PlaceBefore(ranked, pos, i);
      n := PlaceBefore(ranked, pos, j);
      assert m != pos && ranked[m] != ranked[pos];
    }
  }

  // ---------------------------------------------------------------------
  // Runs

  datatype Event = Observe(reports: seq<Report>, at: nat) | Reorder(scores: seq<Scored>)

  datatype Departure = Departure(kind: TransportKind, at: nat)

  function After(c: Chain, events: seq<Event>): (r: Chain)
    requires Usable(c)
    ensures Usable(r)
  {
    if events == [] then c else
      var c' := After(c, events[..|events| - 1]);
      match events[|events| - 1]
      case Observe(reports, now) => Observed(c', reports, now)
      case Reorder(scores) => Reordered(c', scores)
  }

  function Departures(c: Chain, events: seq<Event>): seq<Departure>
    requires Usable(c)
  {
    if events == [] then [] else
      var init, e := events[..|events| - 1], events[|events| - 1];
      var c' := After(c, init);
      Departures(c, init) +
      if e.Observe? && Advances(c', e.reports, e.at) then [Departure(Current(c'), e.at)] else []
  }

  ghost predicate Spaced(log: seq<Departure>) {
    forall i, j | 0 <= i < j < |log| && log[i].kind == log[j].kind :: log[j].at >= log[i].at + 5_000
  }

  ghost predicate Recorded(c: Chain, log: seq<Departure>) {
    forall d | d in log :: exists b | b in c.blocked :: b.kind == d.kind && b.until == d.at + 5_000
  }

  /** In any run the index stays in the chain, and two departures from one transport are at
      least the block time apart, even across reorderings and whatever the clock does. */
  lemma {:induction false} DeparturesApart(c: Chain, events: seq<Event>)
    requires Usable(c) && c.index < |c.order|
    ensures After(c, events).index < |After(c, events).order|
    ensures Recorded(After(c, events), Departures(c, events))
    ensures Spaced(Departures(c, events))
    decreases |events|
  {
    if events != [] {
      var init, e := events[..|events| - 1], events[|events| - 1];
      DeparturesApart(c, init);
      var c', log := After(c, init), Departures(c, init);
      if e.Observe? {
        ObservedStep(c', e.reports, e.at, log);
      } else if e.scores != [] {
        var _ := ReorderedOrder(c', e.scores);
      }
    }
  }

  lemma ObservedStep(c: Chain, reports: seq<Report>, now: nat, log: seq<Departure>)
    requires Usable(c) && Recorded(c, log)
    ensures Advances(c, reports, now) ==>
              Recorded(Observed(c, reports, now), log + [Departure(Current(c), now)])
              && forall d | d in log && d.kind == Current(c) :: now >= d.at + BLOCK_MS
    ensures !Advances(c, reports, now) ==> Recorded(Observed(c, reports, now), log)
  {
    if Advances(c, reports, now) {
      var c' := Observed(c, reports, now);
      var block := c'.blocked[|c.blocked|];
      forall d | d in log + [Departure(Current(c), now)]
        ensures exists b | b in c'.blocked :: b.kind == d.kind && b.until == d.at + 5_000
      {
        if d in log {
          var b :| b in c.blocked && b.kind == d.kind && b.until == d.at + 5_000;
          assert b in c'.blocked;
        } else {
          assert block in c'.blocked;
        }
      }
    }
  }

  /** One signal is enough: whatever it is, the chain moves on from an unblocked current
      transport that is not the last, by exactly one place, and on nothing else. */
  lemma AdvancesIff(c: Chain, kind: TransportKind, signal: Signal, now: nat)
    requires Usable(c) && c.index < |c.order|
    ensures Observed(c, [Report(kind, signal)], now) != c
            <==> kind == c.order[c.index] && c.index + 1 < |c.order| && !BlockedAt(c, kind, now)
    ensures Observed(c, [Report(kind, signal)], now).index <= c.index + 1
  {
    assert Report(kind, signal) in [Report(kind, signal)];
    assert Min(c.index, |c.order| - 1) == c.index;
  }

  // The blocks are one for each departure, in order.
  ghost predicate BlocksMatch(blocked: seq<Block>, log: seq<Departure>) {
    && |blocked| == |log|
    && forall i | 0 <= i < |log| ::
         blocked[i].kind == log[i].kind && blocked[i].since == log[i].at && blocked[i].until == log[i].at + 5_000
  }

  lemma {:induction false} BlocksAreDepartures(c: Chain, events: seq<Event>)
    requires Usable(c) && c.blocked == []
    ensures BlocksMatch(After(c, events).blocked, Departures(c, events))
    decreases |events|
  {
    if events != [] {
      BlocksAreDepartures(c, events[..|events| - 1]);
    }
  }

  // The chain left the transport less than five seconds before now.
  predicate LeftLately(log: seq<Departure>, kind: TransportKind, now: nat) {
    exists d | d in log :: d.kind == kind && now < d.at + 5_000
  }

  lemma BlockedIffLately(c: Chain, log: seq<Departure>, kind: TransportKind, now: nat)
    requires BlocksMatch(c.blocked, log)
    ensures BlockedAt(c, kind, now) <==> LeftLately(log, kind, now)
  {
    if b :| b in c.blocked && b.kind == kind && now < b.until {
      var i :| 0 <= i < |c.blocked| && c.blocked[i] == b;
      assert log[i] in log;
    }
    if d :| d in log && d.kind == kind && now < d.at + 5_000 {
      var i :| 0 <= i < |log| && log[i] == d;
      assert c.blocked[i] in c.blocked;
    }
  }

  lemma MovesIff(c: Chain, log: seq<Departure>, reports: seq<Report>, now: nat)
    requires Usable(c) && c.index < |c.order| && BlocksMatch(c.blocked, log)
    ensures Observed(c, reports, now) != c
            <==> && (exists r | r in reports :: r.kind == c.order[c.index]) && c.index + 1 < |c.order|
                 && !LeftLately(log, c.order[c.index], now)
    ensures Observed(c, reports, now) != c ==> Observed(c, reports, now).index == c.index + 1
  {
    BlockedIffLately(c, log, c.order[c.index], now);
  }

  /** At any point of a run that begins without blocks, reports move the chain, by one place, exactly if
      one names the current transport, that is not the last, and the chain did not leave it in the last
      five seconds. */
  lemma LeavesIff(c: Chain, events: seq<Event>, reports: seq<Report>, now: nat)
    requires Usable(c) && c.blocked == [] && c.index < |c.order|
    ensures var c', log := After(c, events), Departures(c, events);
            && c'.index < |c'.order|
            && (Observed(c', reports, now) != c'
                <==> && (exists r | r in reports :: r.kind == c'.order[c'.index]) && c'.index + 1 < |c'.order|
                     && !LeftLately(log, c'.order[c'.index], now))
            && (Observed(c', reports, now) != c' ==> Observed(c', reports, now).index == c'.index + 1)
  {
    DeparturesApart(c, events);
    BlocksAreDepartures(c, events);
    MovesIff(After(c, events), Departures(c, events), reports, now);
  }
}
