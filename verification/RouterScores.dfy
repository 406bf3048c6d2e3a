/** Router scores on traces the parser accepts: which ones a signal selects, and exactly which
    ones are still retained at every point of a replay. */
module RouterScores {
  import opened CacheModel
  import opened TraceParser

  // ---------------------------------------------------------------- selection

  function Qualified(predictions: seq<Prediction>, minimum: nat): seq<Prediction> {
    if predictions == [] then []
    else
      var last := predictions[|predictions| - 1];
      Qualified(predictions[..|predictions| - 1], minimum) + if last.score >= minimum then [last] else []
  }

  ghost predicate Sorted(ranked: seq<Prediction>) {
    forall i, j | 0 <= i < j < |ranked| :: RanksBefore(ranked[i], ranked[j])
  }

  lemma {:induction false} PlaceSorts(p: Prediction, ranked: seq<Prediction>)
    requires Sorted(ranked)
    ensures Sorted(Place(p, ranked))
    ensures multiset(Place(p, ranked)) == multiset(ranked) + multiset{p}
  {
    if ranked != [] && !RanksBefore(p, ranked[0]) {
      assert ranked == [ranked[0]] + ranked[1..];
      PlaceSorts(p, ranked[1..]);
      var rest := Place(p, ranked[1..]);
      forall i | 0 <= i < |rest| ensures RanksBefore(ranked[0], rest[i]) {
        assert rest[i] in multiset(rest);
        assert rest[i] == p || rest[i] in ranked[1..];
      }
    }
  }

  lemma {:induction false} RankedIsSorted(predictions: seq<Prediction>, minimum: nat)
    ensures Sorted(Ranked(predictions, minimum))
    ensures multiset(Ranked(predictions, minimum)) == multiset(Qualified(predictions, minimum))
  {
    if predictions != [] {
      var prior := predictions[..|predictions| - 1];
      RankedIsSorted(prior, minimum);
      PlaceSorts(predictions[|predictions| - 1], Ranked(prior, minimum));
    }
  }

  /** A signal keeps the best `limit` qualified predictions: the kept and the dropped ones make
      up all qualified predictions, and no dropped one ranks strictly before a kept one. */
  lemma SelectedAreBest(predictions: seq<Prediction>, minimum: nat, limit: nat) returns (dropped: seq<Prediction>)
    ensures
      var kept := Selected(predictions, minimum, limit);
      var all := Qualified(predictions, minimum);
      && multiset(kept) + multiset(dropped) == multiset(all)
      && |kept| == (if |all| <= limit then |all| else limit)
      && forall i, j | 0 <= i < |kept| && 0 <= j < |dropped| :: RanksBefore(kept[i], dropped[j])
  {
    RankedIsSorted(predictions, minimum);
    hide Ranked, Qualified, RanksBefore;
    var ranked := Ranked(predictions, minimum);
    var kept := Selected(predictions, minimum, limit);
    dropped := ranked[|kept|..];
    assert ranked == kept + dropped;
    assert |multiset(ranked)| == |ranked|;
  }

  // ---------------------------------------------------------------- retention

  ghost function Stream(records: seq<EventRecord>): seq<Event> {
    seq(|records|, i requires 0 <= i < |records| => records[i].event)
  }

  /** Record `i` signalled `key` and kept at least one prediction. */
  ghost predicate Signals(cfg: Config, records: seq<EventRecord>, i: nat, key: (nat, nat, nat))
    requires i < |records|
  {
    var e := records[i].event;
    && e.Signal? && key == (e.request, e.targetStep, e.layer)
    && Selected(e.predictions, cfg.minimumScorePpm, cfg.maxExperts) != []
  }

  /** Signalled among the first `n` records and not passed by any demand of its request. */
  ghost predicate Live(cfg: Config, records: seq<EventRecord>, n: nat, key: (nat, nat, nat))
    requires n <= |records|
  {
    && (exists i: nat :: i < n && Signals(cfg, records, i, key))
    && forall r | r in RealizedBefore(records, n) && r.0 == key.0 :: r.1 <= key.1
  }

  ghost function ScoresAt(cfg: Config, pages: seq<Page>, records: seq<EventRecord>, n: nat): Scores
    requires cfg.Valid() && n <= |records| && AllKnown(pages, Stream(records))
  {
    Run(cfg, pages, Stream(records)[..n]).scores
  }

  lemma ScoresStep(cfg: Config, pages: seq<Page>, records: seq<EventRecord>, n: nat)
    requires cfg.Valid() && n < |records| && AllKnown(pages, Stream(records))
    ensures
      var e := records[n].event;
      ScoresAt(cfg, pages, records, n + 1) ==
        if e.Signal? then AfterSignal(cfg, ScoresAt(cfg, pages, records, n), e)
        else Unexpired(cfg, ScoresAt(cfg, pages, records, n), e.request, e.step)
  {
    var events := Stream(records);
    assert events[..n + 1][..n] == events[..n];
    StepScores(cfg, pages, Run(cfg, pages, events[..n]), events[n]);
  }

  lemma StepScores(cfg: Config, pages: seq<Page>, s: State, e: Event)
    requires Inv(cfg, pages, s) && Known(pages, e)
    ensures Step(cfg, pages, s, e).scores ==
      if e.Signal? then AfterSignal(cfg, s.scores, e) else Unexpired(cfg, s.scores, e.request, e.step)
  {}

  lemma AcceptedIsKnown(pages: seq<Page>, records: seq<EventRecord>)
    requires EventsOk(pages, records)
    ensures AllKnown(pages, Stream(records))
  {
    forall i | 0 <= i < |records| ensures Known(pages, Stream(records)[i]) {
      assert EventOk(pages, records, i);
    }
  }

  lemma LiveAfterDemand(cfg: Config, records: seq<EventRecord>, n: nat, key: (nat, nat, nat))
    requires n < |records| && records[n].event.Demand?
    ensures
      var e := records[n].event;
      Live(cfg, records, n + 1, key) <==> Live(cfg, records, n, key) && !(key.0 == e.request && key.1 < e.step)
  {
    var e := records[n].event;
    assert RealizedBefore(records, n + 1) == RealizedBefore(records, n) + {(e.request, e.step)};
  }

  lemma SignalledIsTarget(cfg: Config, records: seq<EventRecord>, n: nat, key: (nat, nat, nat))
    requires n <= |records|
    ensures (exists i: nat :: i < n && Signals(cfg, records, i, key)) ==> key in TargetsBefore(records, n)
  {}

  lemma LiveAfterSignal(cfg: Config, pages: seq<Page>, records: seq<EventRecord>, n: nat, key: (nat, nat, nat))
    requires n < |records| && records[n].event.Signal? && SignalOk(pages, records, n)
    ensures
      var e := records[n].event;
      var target := (e.request, e.targetStep, e.layer);
      && !Live(cfg, records, n, target)
      && (Live(cfg, records, n + 1, key) <==>
            if key == target then Selected(e.predictions, cfg.minimumScorePpm, cfg.maxExperts) != []
            else Live(cfg, records, n, key))
  {
    var e := records[n].event;
    var target := (e.request, e.targetStep, e.layer);
    assert RealizedBefore(records, n + 1) == RealizedBefore(records, n);
    SignalledIsTarget(cfg, records, n, target);
    if key == target && Selected(e.predictions, cfg.minimumScorePpm, cfg.maxExperts) != [] {
      assert Signals(cfg, records, n, key);
    }
  }

  /** At every point of the replay of an accepted trace, a score entry is retained exactly when
      it was signalled and no demand of its request has passed its step, and it holds exactly the
      scores its signal selected. */
  lemma {:induction false} RetainedExactly(cfg: Config, pages: seq<Page>, records: seq<EventRecord>, n: nat)
    requires cfg.Valid() && cfg.policy.RouterAdmitPolicy? && EventsOk(pages, records) && n <= |records|
    ensures AllKnown(pages, Stream(records))
    ensures forall key :: key in ScoresAt(cfg, pages, records, n) <==> Live(cfg, records, n, key)
    ensures forall key :: key in ScoresAt(cfg, pages, records, n) ==>
      Stores(cfg, records, n, key, ScoresAt(cfg, pages, records, n)[key])
  {
    AcceptedIsKnown(pages, records);
    if n > 0 {
      hide Live, ScoresAt, Stream, EventsOk, Stores;
      RetainedExactly(cfg, pages, records, n - 1);
      forall key: (nat, nat, nat)
        ensures key in ScoresAt(cfg, pages, records, n) <==> Live(cfg, records, n, key)
        ensures key in ScoresAt(cfg, pages, records, n) ==>
          Stores(cfg, records, n, key, ScoresAt(cfg, pages, records, n)[key])
      {
        RetainedStep(cfg, pages, records, n - 1, key);
      }
    } else {
      assert Stream(records)[..0] == [];
    }
  }

  lemma RetainedStep(cfg: Config, pages: seq<Page>, records: seq<EventRecord>, n: nat, key: (nat, nat, nat))
    requires cfg.Valid() && cfg.policy.RouterAdmitPolicy? && EventsOk(pages, records) && n < |records|
    requires AllKnown(pages, Stream(records))
    requires key in ScoresAt(cfg, pages, records, n) <==> Live(cfg, records, n, key)
    requires key in ScoresAt(cfg, pages, records, n) ==>
      Stores(cfg, records, n, key, ScoresAt(cfg, pages, records, n)[key])
    ensures key in ScoresAt(cfg, pages, records, n + 1) <==> Live(cfg, records, n + 1, key)
    ensures key in ScoresAt(cfg, pages, records, n + 1) ==>
      Stores(cfg, records, n + 1, key, ScoresAt(cfg, pages, records, n + 1)[key])
  {
    assert EventOk(pages, records, n);
    hide Live, ScoresAt, Stream, Stores;
    ScoresStep(cfg, pages, records, n);
    if records[n].event.Demand? {
      LiveAfterDemand(cfg, records, n, key);
      if key in ScoresAt(cfg, pages, records, n) {
        StoresOn(cfg, records, n, key, ScoresAt(cfg, pages, records, n)[key]);
      }
    } else {
      LiveAfterSignal(cfg, pages, records, n, key);
      if key in ScoresAt(cfg, pages, records, n) {
        StoresOn(cfg, records, n, key, ScoresAt(cfg, pages, records, n)[key]);
      }
      StoresNew(cfg, pages, records, n);
    }
  }

  /** What is stored under a key is what each signal for it selected. An accepted trace holds one. */
  ghost predicate Stores(cfg: Config, records: seq<EventRecord>, n: nat, key: (nat, nat, nat), table: map<nat, nat>)
    requires n <= |records|
  {
    forall i: nat | i < n && Signals(cfg, records, i, key) ::
      table == ScoreTable(Selected(records[i].event.predictions, cfg.minimumScorePpm, cfg.maxExperts))
  }

  /** A record about something else leaves what is stored as it was. */
  lemma StoresOn(cfg: Config, records: seq<EventRecord>, n: nat, key: (nat, nat, nat), table: map<nat, nat>)
    requires n < |records| && Stores(cfg, records, n, key, table)
    ensures !Signals(cfg, records, n, key) ==> Stores(cfg, records, n + 1, key, table)
  {
    hide ScoreTable, Selected;
  }

  /** A signal stores its own selection, the first for its key. */
  lemma StoresNew(cfg: Config, pages: seq<Page>, records: seq<EventRecord>, n: nat)
    requires n < |records| && records[n].event.Signal? && SignalOk(pages, records, n)
    ensures
      var e := records[n].event;
      Stores(cfg, records, n + 1, (e.request, e.targetStep, e.layer),
             ScoreTable(Selected(e.predictions, cfg.minimumScorePpm, cfg.maxExperts)))
  {
    hide ScoreTable, Selected;
    var e := records[n].event;
    SignalledIsTarget(cfg, records, n, (e.request, e.targetStep, e.layer));
  }

  /** No retained entry targets a step its request has passed, no signal overwrites a retained
      entry, and at the end only entries for each request's final step remain. */
  lemma RetentionSafety(cfg: Config, pages: seq<Page>, records: seq<EventRecord>, n: nat, key: (nat, nat, nat))
    requires cfg.Valid() && cfg.policy.RouterAdmitPolicy? && EventsOk(pages, records) && n <= |records|
    ensures AllKnown(pages, Stream(records))
    ensures key in ScoresAt(cfg, pages, records, n) ==>
      forall r | r in RealizedBefore(records, n) && r.0 == key.0 :: r.1 <= key.1
    ensures n < |records| && records[n].event.Signal? ==>
      (records[n].event.request, records[n].event.targetStep, records[n].event.layer)
      !in ScoresAt(cfg, pages, records, n)
    ensures key in ScoresAt(cfg, pages, records, |records|) ==>
      (key.0, key.1) in RealizedBefore(records, |records|) &&
      forall r | r in RealizedBefore(records, |records|) && r.0 == key.0 :: r.1 <= key.1
  {
    RetainedExactly(cfg, pages, records, n);
    RetainedExactly(cfg, pages, records, |records|);
    if n < |records| && records[n].event.Signal? {
      assert EventOk(pages, records, n);
      LiveAfterSignal(cfg, pages, records, n, key);
    }
    if key in ScoresAt(cfg, pages, records, |records|) {
      assert Live(cfg, records, |records|, key);
      var i: nat :| i < |records| && Signals(cfg, records, i, key);
      assert key in TargetsBefore(records, |records|);
    }
  }
}
