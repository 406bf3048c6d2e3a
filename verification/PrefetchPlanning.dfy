/** Victims for a group of prefetched pages, as the router policy of `runnel-sim` plans them: only
    probation entries, the least useful first, and only for a group that is worth more. */
module PrefetchPlanning {
  import opened Common
  import opened DecisionLog
  import opened Totals
  import A = Accounting
  import K = Kernel
  import M = CacheModel
  import P = OnlinePolicy
  import R = PolicyRefinement
  import S = CacheSimulator
  import Sorting

  /** The absent pages of one expert, for the step the signal names, at the score it predicts. */
  datatype Group = Group(pages: seq<nat>, request: nat, step: nat, score: nat)

  predicate Known(pages: seq<M.Page>, g: Group) { forall p | p in g.pages :: p < |pages| }

  function Probation(residents: P.Residents): set<nat> {
    set p | p in residents && residents[p].segment == P.PROBATION
  }

  function PageCharge(pages: seq<M.Page>): nat -> nat { (p: nat) => if p < |pages| then pages[p].charge else 0 }

  function Required(pages: seq<M.Page>, g: Group): nat { A.Sum(g.pages, PageCharge(pages)) }

  /** Probation entries share a rank, so this compares scores, then last touches, then pages. */
  function Weaker(s: P.State, pages: seq<M.Page>, residents: P.Residents, g: Group): (nat, nat) -> bool
    requires P.InCatalogue(pages, residents)
  {
    P.Sooner(s, pages, residents, M.Request(g.request, g.step, 0))
  }

  /** By the score for the step the signal names, then last touch, then page. */
  lemma WeakerMeans(s: P.State, pages: seq<M.Page>, residents: P.Residents, g: Group, p: nat, q: nat)
    requires P.InCatalogue(pages, residents) && p in Probation(residents) && q in Probation(residents)
    ensures
      var a, b := P.ActiveScore(s, pages, g.request, g.step, p), P.ActiveScore(s, pages, g.request, g.step, q);
      var x, y := residents[p].lastTouch, residents[q].lastTouch;
      Weaker(s, pages, residents, g)(p, q) <==> a < b || (a == b && (x < y || (x == y && p < q)))
  {
    hide P.ActiveScore;
  }

  /** What keeping an entry is worth: its score for the step, by its bytes. */
  function Worth(s: P.State, pages: seq<M.Page>, residents: P.Residents, g: Group): nat -> nat {
    (p: nat) =>
      if p in residents && p < |pages| then P.ActiveScore(s, pages, g.request, g.step, p) * residents[p].charge else 0
  }

  ghost function Chosen(s: P.State, pages: seq<M.Page>, residents: P.Residents, g: Group, needed: nat): seq<nat>
    requires P.InCatalogue(pages, residents)
  {
    Ordered(s, pages, residents, g);
    P.TakeUntil(Sorting.Sorted(Weaker(s, pages, residents, g), Probation(residents)), P.EntryCharge(residents), needed)
  }

  lemma Ordered(s: P.State, pages: seq<M.Page>, residents: P.Residents, g: Group)
    requires P.InCatalogue(pages, residents)
    ensures Sorting.Orders(Weaker(s, pages, residents, g), Probation(residents))
  {
    P.SoonerOrders(s, pages, residents, M.Request(g.request, g.step, 0), Probation(residents));
  }

  ghost function Plan(s: P.State, pages: seq<M.Page>, residents: P.Residents, resident: nat, capacity: nat, g: Group)
    : K.Answer
    requires P.InCatalogue(pages, residents) && resident <= capacity
  {
    var required, available := Required(pages, g), capacity - resident;
    if required > MAX_U64 then K.Fail
    else if required > capacity then K.Decline
    else if required <= available then K.Evict([])
    else
      var victims := Chosen(s, pages, residents, g, required - available);
      var bytes := A.Sum(victims, P.EntryCharge(residents));
      var worth := A.Sum(victims, Worth(s, pages, residents, g));
      if bytes > MAX_U64 || worth > P.MAX_U128 then K.Fail
      else if bytes < required - available then K.Decline
      else if g.score * required > P.MAX_U128 then K.Fail
      else if worth > 0 && g.score * required <= worth then K.Decline
      else K.Evict(victims)
  }

  method PlanPrefetchVictims(s: P.State, pages: seq<M.Page>, residents: P.Residents, resident: nat, capacity: nat,
                             g: Group)
    returns (answer: K.Answer)
    requires P.InCatalogue(pages, residents) && Known(pages, g) && resident <= capacity
    ensures answer == Plan(s, pages, residents, resident, capacity, g)
  {
    hide A.Sum, P.TakeUntil, Sorting.Orders, Sorting.Lists, P.EntryCharge, Weaker, Worth, Probation, PageCharge;
    var required := P.SumOver(g.pages, PageCharge(pages));
    if required > MAX_U64 { return K.Fail; }
    if required > capacity { return K.Decline; }
    if required <= capacity - resident { return K.Evict([]); }
    var needed := required - (capacity - resident);
    Ordered(s, pages, residents, g);
    var order := Sorting.Sort(Weaker(s, pages, residents, g), Probation(residents));
    var victims, bytes := P.Gather(order, P.EntryCharge(residents), needed);
    var worth := P.SumOver(victims, Worth(s, pages, residents, g));
    if bytes > MAX_U64 || worth > P.MAX_U128 { return K.Fail; }
    if bytes < needed { return K.Decline; }
    if g.score * required > P.MAX_U128 { return K.Fail; }
    answer := if worth > 0 && g.score * required <= worth then K.Decline else K.Evict(victims);
  }

  // ---------------------------------------------------------------- what a plan does

  /** The first victims in order of weakness, listed in that order, and no more of them than `needed`
      asks for. */
  ghost predicate Weakest(s: P.State, pages: seq<M.Page>, residents: P.Residents, g: Group, needed: int,
                          victims: seq<nat>)
    requires P.InCatalogue(pages, residents)
  {
    && Distinct(victims) && Sorting.Ascending(Weaker(s, pages, residents, g), victims)
    && (forall v | v in victims :: v in Probation(residents))
    && (forall v, q | v in victims && q in Probation(residents) && q !in victims ::
          Weaker(s, pages, residents, g)(v, q))
    && (victims != [] ==> A.Sum(victims[..|victims| - 1], P.EntryCharge(residents)) < needed)
  }

  lemma ChosenWeakest(s: P.State, pages: seq<M.Page>, residents: P.Residents, g: Group, needed: nat)
    requires P.InCatalogue(pages, residents) && needed > 0
    ensures
      var victims := Chosen(s, pages, residents, g, needed);
      && Weakest(s, pages, residents, g, needed, victims)
      && (A.Sum(victims, P.EntryCharge(residents)) < needed ==>
            A.Sum(victims, P.EntryCharge(residents)) == Total(Probation(residents), P.EntryCharge(residents)))
  {
    hide A.Sum, P.TakeUntil, P.EntryCharge, Weaker, Total;
    Ordered(s, pages, residents, g);
    var less, w := Weaker(s, pages, residents, g), P.EntryCharge(residents);
    var order := Sorting.Sorted(less, Probation(residents));
    var n := R.TakePrefix(order, w, needed);
    AscendingDistinct(less, Probation(residents), order);
    PrefixFirst(less, Probation(residents), order, n);
    assert n > 0 ==> order[..n][..n - 1] == order[..n - 1];
    if n == |order| {
      assert order[..n] == order;
      R.SumIsTotal(order, w);
      assert S.Elements(order) == Probation(residents);
    }
  }

  lemma AscendingDistinct(less: (nat, nat) -> bool, among: set<nat>, order: seq<nat>)
    requires Sorting.Orders(less, among) && Sorting.Lists(less, among, order)
    ensures Distinct(order)
  {
    forall i, j | 0 <= i < j < |order| ensures order[i] != order[j] {
      assert order[i] in among && less(order[i], order[j]);
    }
  }

  lemma PrefixFirst(less: (nat, nat) -> bool, among: set<nat>, order: seq<nat>, n: nat)
    requires Sorting.Lists(less, among, order) && Distinct(order) && n <= |order|
    ensures Distinct(order[..n]) && Sorting.Ascending(less, order[..n])
    ensures forall v | v in order[..n] :: v in among
    ensures forall v, q | v in order[..n] && q in among && q !in order[..n] :: less(v, q)
  {
    assert forall i | 0 <= i < |order| :: order[i] in Sorting.Members(order);
    assert forall i | 0 <= i < n :: order[..n][i] == order[i];
    forall v, q | v in order[..n] && q in among && q !in order[..n] ensures less(v, q) {
      var i :| 0 <= i < n && order[i] == v;
      assert q in Sorting.Members(order);
      var j :| 0 <= j < |order| && order[j] == q;
    }
  }

  /** An admitted group: its victims are the weakest probation entries, together they free enough,
      without the last they would not, and the group is worth more than they are. */
  lemma PlanSpares(s: P.State, pages: seq<M.Page>, residents: P.Residents, resident: nat, capacity: nat, g: Group)
    requires P.InCatalogue(pages, residents) && resident <= capacity
    ensures
      var answer, required := Plan(s, pages, residents, resident, capacity, g), Required(pages, g);
      answer.Evict? ==>
        var v := answer.victims;
        && Weakest(s, pages, residents, g, resident + required - capacity, v)
        && resident + required <= capacity + A.Sum(v, P.EntryCharge(residents))
        && (A.Sum(v, Worth(s, pages, residents, g)) == 0
            || A.Sum(v, Worth(s, pages, residents, g)) < g.score * required)
  {
    hide Weakest, Chosen, P.EntryCharge, Worth, Required;
    var needed := resident + Required(pages, g) - capacity;
    if needed > 0 {
      ChosenWeakest(s, pages, residents, g, needed);
    } else {
      NoVictims(s, pages, residents, g, needed);
    }
  }

  /** Victims worth at least as much as the group. */
  ghost predicate Outbid(s: P.State, pages: seq<M.Page>, residents: P.Residents, g: Group, victims: seq<nat>) {
    && 0 < A.Sum(victims, Worth(s, pages, residents, g))
    && g.score * Required(pages, g) <= A.Sum(victims, Worth(s, pages, residents, g))
  }

  /** A refused group: larger than the cache, or than all that probation could free, or worth no more
      than the weakest victims that would make room. */
  lemma PlanRefuses(s: P.State, pages: seq<M.Page>, residents: P.Residents, resident: nat, capacity: nat, g: Group)
    requires P.InCatalogue(pages, residents) && resident <= capacity
    requires Plan(s, pages, residents, resident, capacity, g).Decline?
    ensures
      var required := Required(pages, g);
      || required > capacity
      || Total(Probation(residents), P.EntryCharge(residents)) + capacity < resident + required
      || exists v ::
           && Weakest(s, pages, residents, g, resident + required - capacity, v)
           && resident + required <= capacity + A.Sum(v, P.EntryCharge(residents)) && Outbid(s, pages, residents, g, v)
  {
    hide Weakest, Chosen, P.EntryCharge, Worth, Required, Total, A.Sum;
    var needed := resident + Required(pages, g) - capacity;
    if 0 < needed && Required(pages, g) <= capacity {
      ChosenWeakest(s, pages, residents, g, needed);
      var v := Chosen(s, pages, residents, g, needed);
      assert Required(pages, g) - (capacity - resident) == needed;
      assert A.Sum(v, P.EntryCharge(residents)) < needed || Outbid(s, pages, residents, g, v);
    }
  }

  // ---------------------------------------------------------------- when a plan succeeds and when it fails

  /** The list that the scan ends with: it frees enough, or takes all of probation without doing so. */
  ghost predicate Scanned(s: P.State, pages: seq<M.Page>, residents: P.Residents, g: Group, needed: int,
                          victims: seq<nat>)
    requires P.InCatalogue(pages, residents)
  {
    && Weakest(s, pages, residents, g, needed, victims)
    && (A.Sum(victims, P.EntryCharge(residents)) >= needed || forall p | p in Probation(residents) :: p in victims)
  }

  lemma {:induction false} SumMonotone(list: seq<nat>, n: nat, w: nat -> nat)
    requires n <= |list|
    ensures A.Sum(list[..n], w) <= A.Sum(list, w)
    decreases |list|
  {
    if n == |list| {
      assert list[..n] == list;
    } else {
      assert list[..|list| - 1][..n] == list[..n];
      SumMonotone(list[..|list| - 1], n, w);
    }
  }

  /** A list in order that nothing outside it comes before is the front of the whole order. */
  lemma FrontOfOrder(less: (nat, nat) -> bool, among: set<nat>, order: seq<nat>, v: seq<nat>)
    requires Sorting.Orders(less, among) && Sorting.Lists(less, among, order)
    requires Distinct(v) && Sorting.Ascending(less, v) && forall x | x in v :: x in among
    requires forall x, q | x in v && q in among && q !in v :: less(x, q)
    ensures |v| <= |order| && v == order[..|v|]
  {
    hide Sorting.Orders, Sorting.Ascending;
    var rest := among - Sorting.Members(v);
    RestOrders(less, among, rest);
    var tail := Sorting.Sorted(less, rest);
    JoinedAscends(less, v, tail, rest);
    assert Sorting.Members(v + tail) == Sorting.Members(v) + rest == among;
    Sorting.SortedOnce(less, order, v + tail);
  }

  lemma JoinedAscends(less: (nat, nat) -> bool, v: seq<nat>, tail: seq<nat>, rest: set<nat>)
    requires Sorting.Ascending(less, v) && Sorting.Ascending(less, tail) && Sorting.Members(tail) == rest
    requires forall x, q | x in v && q in rest :: less(x, q)
    ensures Sorting.Ascending(less, v + tail)
  {
    forall i, j | 0 <= i < j < |v + tail| ensures less((v + tail)[i], (v + tail)[j]) {
      if i < |v| <= j { assert v[i] in v && tail[j - |v|] in Sorting.Members(tail); }
    }
  }

  lemma RestOrders(less: (nat, nat) -> bool, among: set<nat>, rest: set<nat>)
    requires Sorting.Orders(less, among) && rest <= among
    ensures Sorting.Orders(less, rest)
  {}

  /** There is one such list, and the plan is made on it. */
  lemma ScannedIsChosen(s: P.State, pages: seq<M.Page>, residents: P.Residents, g: Group, needed: nat, v: seq<nat>)
    requires P.InCatalogue(pages, residents) && needed > 0 && Scanned(s, pages, residents, g, needed, v)
    ensures v == Chosen(s, pages, residents, g, needed)
  {
    hide A.Sum, P.TakeUntil, P.EntryCharge, Weaker, Probation, Sorting.Orders;
    Ordered(s, pages, residents, g);
    var less, w := Weaker(s, pages, residents, g), P.EntryCharge(residents);
    var order := Sorting.Sorted(less, Probation(residents));
    FrontOfOrder(less, Probation(residents), order, v);
    var n := R.TakePrefix(order, w, needed);
    AllInFront(Probation(residents), order, |v|);
    if n < |v| {
      assert v[..|v| - 1][..n] == order[..n];
      SumMonotone(v[..|v| - 1], n, w);
    }
  }

  lemma AllInFront(among: set<nat>, order: seq<nat>, n: nat)
    requires Distinct(order) && Sorting.Members(order) == among && n <= |order|
    ensures (forall p | p in among :: p in order[..n]) ==> n == |order|
  {
    if n < |order| {
      assert order[n] in Sorting.Members(order);
      assert order[n] !in order[..n];
    }
  }

  /** A plan, told from the weakest victims alone. */
  lemma PlanDecides(s: P.State, pages: seq<M.Page>, residents: P.Residents, resident: nat, capacity: nat, g: Group,
                    v: seq<nat>)
    requires P.InCatalogue(pages, residents) && resident <= capacity
    requires Required(pages, g) <= MAX_U64 && Required(pages, g) <= capacity < resident + Required(pages, g)
    requires Scanned(s, pages, residents, g, resident + Required(pages, g) - capacity, v)
    ensures
      var answer, required := Plan(s, pages, residents, resident, capacity, g), Required(pages, g);
      var freed, worth := A.Sum(v, P.EntryCharge(residents)), A.Sum(v, Worth(s, pages, residents, g));
      if freed > MAX_U64 || worth > P.MAX_U128 then answer == K.Fail
      else if resident + required > capacity + freed then answer == K.Decline
      else if g.score * required > P.MAX_U128 then answer == K.Fail
      else if Outbid(s, pages, residents, g, v) then answer == K.Decline
      else answer == K.Evict(v)
  {
    hide Scanned, Chosen, P.EntryCharge, Worth, Required, A.Sum;
    var needed := resident + Required(pages, g) - capacity;
    ScannedIsChosen(s, pages, residents, g, needed, v);
    assert Required(pages, g) - (capacity - resident) == needed;
  }

  lemma SomeScanned(s: P.State, pages: seq<M.Page>, residents: P.Residents, g: Group, needed: nat)
    requires P.InCatalogue(pages, residents) && needed > 0
    ensures Scanned(s, pages, residents, g, needed, Chosen(s, pages, residents, g, needed))
  {
    hide A.Sum, P.TakeUntil, P.EntryCharge, Weaker, Weakest;
    ChosenWeakest(s, pages, residents, g, needed);
    Ordered(s, pages, residents, g);
    var order := Sorting.Sorted(Weaker(s, pages, residents, g), Probation(residents));
    var n := R.TakePrefix(order, P.EntryCharge(residents), needed);
    if n == |order| { assert order[..n] == order; }
  }

  /** A sum of the scan leaves its width. */
  ghost predicate Overflows(s: P.State, pages: seq<M.Page>, residents: P.Residents, g: Group, needed: int,
                            v: seq<nat>)
  {
    var freed := A.Sum(v, P.EntryCharge(residents));
    || freed > MAX_U64 || A.Sum(v, Worth(s, pages, residents, g)) > P.MAX_U128
    || (freed >= needed && g.score * Required(pages, g) > P.MAX_U128)
  }

  /** A plan fails exactly when the group's charge leaves 64 bits or a sum of its scan leaves its width. */
  lemma PlanFails(s: P.State, pages: seq<M.Page>, residents: P.Residents, resident: nat, capacity: nat, g: Group)
    requires P.InCatalogue(pages, residents) && resident <= capacity
    ensures
      var required := Required(pages, g);
      var needed := resident + required - capacity;
      Plan(s, pages, residents, resident, capacity, g) == K.Fail <==>
        || required > MAX_U64
        || (required <= capacity && needed > 0
            && exists v :: Scanned(s, pages, residents, g, needed, v) && Overflows(s, pages, residents, g, needed, v))
  {
    hide Scanned, Chosen, P.EntryCharge, Worth, Required, A.Sum, Plan;
    var required := Required(pages, g);
    var needed := resident + required - capacity;
    if required <= MAX_U64 && required <= capacity && needed > 0 {
      var v := Chosen(s, pages, residents, g, needed);
      SomeScanned(s, pages, residents, g, needed);
      PlanDecides(s, pages, residents, resident, capacity, g, v);
      forall u | Scanned(s, pages, residents, g, needed, u) ensures u == v {
        ScannedIsChosen(s, pages, residents, g, needed, u);
      }
    } else {
      PlanAtOnce(s, pages, residents, resident, capacity, g);
    }
  }

  /** Without a scan: a group beyond 64 bits fails, one beyond the capacity is refused, one that fits
      needs no victims. */
  lemma PlanAtOnce(s: P.State, pages: seq<M.Page>, residents: P.Residents, resident: nat, capacity: nat, g: Group)
    requires P.InCatalogue(pages, residents) && resident <= capacity
    ensures
      var answer, required := Plan(s, pages, residents, resident, capacity, g), Required(pages, g);
      && (required > MAX_U64 ==> answer == K.Fail)
      && (capacity < required <= MAX_U64 ==> answer == K.Decline)
      && (resident + required <= capacity && required <= MAX_U64 ==> answer == K.Evict([]))
  {
    hide Required, Chosen, A.Sum;
  }

  /** A group that fits the cache is admitted with any victims that are the weakest, free enough and are
      worth less, as long as nothing overflows. */
  lemma PlanAdmits(s: P.State, pages: seq<M.Page>, residents: P.Residents, resident: nat, capacity: nat, g: Group,
                   v: seq<nat>)
    requires P.InCatalogue(pages, residents) && resident <= capacity
    requires Required(pages, g) <= MAX_U64 && Required(pages, g) <= capacity < resident + Required(pages, g)
    requires Weakest(s, pages, residents, g, resident + Required(pages, g) - capacity, v)
    requires resident + Required(pages, g) <= capacity + A.Sum(v, P.EntryCharge(residents))
    requires !Overflows(s, pages, residents, g, resident + Required(pages, g) - capacity, v)
    requires !Outbid(s, pages, residents, g, v)
    ensures Plan(s, pages, residents, resident, capacity, g) == K.Evict(v)
  {
    hide Weakest, P.EntryCharge, Worth, Required, A.Sum, Plan, Outbid;
    PlanDecides(s, pages, residents, resident, capacity, g, v);
  }

  // ---------------------------------------------------------------- within the limits nothing overflows

  /** The kernel's entries with its ledger, in 64 bits, and scores of at most a million. */
  ghost predicate WithinLimits(s: P.State, residents: P.Residents, resident: nat, capacity: nat, g: Group) {
    && resident == Total(residents.Keys, P.EntryCharge(residents)) <= capacity <= MAX_U64 && g.score <= P.PPM
    && (s.Routed? ==> R.SmallScores(s.ledger.active))
  }

  lemma {:induction false} WorthAtMost(s: P.State, pages: seq<M.Page>, residents: P.Residents, g: Group, v: seq<nat>)
    requires s.Routed? ==> R.SmallScores(s.ledger.active)
    ensures A.Sum(v, Worth(s, pages, residents, g)) <= P.PPM * A.Sum(v, P.EntryCharge(residents))
  {
    hide Worth, P.EntryCharge;
    if v != [] {
      var n := |v| - 1;
      WorthAtMost(s, pages, residents, g, v[..n]);
      EntryWorth(s, pages, residents, g, v[n]);
      Distribute(P.PPM, A.Sum(v[..n], P.EntryCharge(residents)), P.EntryCharge(residents)(v[n]));
    }
  }

  lemma Distribute(k: nat, a: nat, b: nat)
    ensures k * (a + b) == k * a + k * b
  {}

  lemma EntryWorth(s: P.State, pages: seq<M.Page>, residents: P.Residents, g: Group, p: nat)
    requires s.Routed? ==> R.SmallScores(s.ledger.active)
    ensures Worth(s, pages, residents, g)(p) <= P.PPM * P.EntryCharge(residents)(p)
  {
    if p in residents && p < |pages| {
      R.Product(P.ActiveScore(s, pages, g.request, g.step, p), residents[p].charge, P.PPM, residents[p].charge);
    }
  }

  /** On the kernel's own ledger only a group whose charge leaves 64 bits can fail. */
  lemma PlanNeverFails(s: P.State, pages: seq<M.Page>, residents: P.Residents, resident: nat, capacity: nat, g: Group)
    requires P.InCatalogue(pages, residents) && WithinLimits(s, residents, resident, capacity, g)
    ensures Plan(s, pages, residents, resident, capacity, g) == K.Fail <==> Required(pages, g) > MAX_U64
  {
    hide Weakest, P.EntryCharge, Worth, Required, A.Sum, Plan, Total;
    PlanFails(s, pages, residents, resident, capacity, g);
    var required := Required(pages, g);
    var needed := resident + required - capacity;
    if required <= capacity {
      forall v | Scanned(s, pages, residents, g, needed, v) ensures !Overflows(s, pages, residents, g, needed, v) {
        VictimsFit(s, pages, residents, resident, g, needed, v);
        WorthAtMost(s, pages, residents, g, v);
        FitsWide(A.Sum(v, Worth(s, pages, residents, g)), A.Sum(v, P.EntryCharge(residents)), g.score, required);
      }
    }
  }

  lemma VictimsFit(s: P.State, pages: seq<M.Page>, residents: P.Residents, resident: nat, g: Group, needed: int,
                   v: seq<nat>)
    requires P.InCatalogue(pages, residents) && Weakest(s, pages, residents, g, needed, v)
    requires resident == Total(residents.Keys, P.EntryCharge(residents))
    ensures A.Sum(v, P.EntryCharge(residents)) <= resident
  {
    hide Total, P.EntryCharge;
    R.SumIsTotal(v, P.EntryCharge(residents));
    assert S.Elements(v) <= residents.Keys;
    TotalMonotone(S.Elements(v), residents.Keys, P.EntryCharge(residents));
  }

  lemma FitsWide(worth: nat, freed: nat, score: nat, required: nat)
    requires worth <= P.PPM * freed && freed <= MAX_U64 && score <= P.PPM && required <= MAX_U64
    ensures worth <= P.MAX_U128 && score * required <= P.MAX_U128
  {
    R.Product(score, required, P.PPM, MAX_U64);
    R.Product(P.PPM, freed, P.PPM, MAX_U64);
    assert P.PPM * MAX_U64 <= P.MAX_U128;
  }

  lemma NoVictims(s: P.State, pages: seq<M.Page>, residents: P.Residents, g: Group, needed: int)
    requires P.InCatalogue(pages, residents)
    ensures A.Sum([], P.EntryCharge(residents)) == 0 && A.Sum([], Worth(s, pages, residents, g)) == 0
    ensures Weakest(s, pages, residents, g, needed, [])
  {}

  // ---------------------------------------------------------------- scan resistance of prefetching

  /** A decision taken on these entries that no protected page pays for. */
  ghost predicate Sparing(residents: P.Residents, d: Record) {
    forall p | p in P.Protected(residents) :: p !in d.victims
  }

  lemma GroupSpares(cat: A.Catalogue, s: P.State, pages: seq<M.Page>, residents: P.Residents, resident: nat,
                    capacity: nat, g: Group, left: K.Budget, d: Record)
    requires P.InCatalogue(pages, residents) && resident <= capacity
    requires K.Decides(cat, left.pages, left.bytes, Plan(s, pages, residents, resident, capacity, g), d)
    ensures Sparing(residents, d)
  {
    hide Plan, Required, A.Sum;
    PlanSpares(s, pages, residents, resident, capacity, g);
  }

  /** However many groups are prefetched, every page that was protected is still there, untouched. */
  lemma {:induction false} ProtectedSurvive(states: seq<P.Residents>, told: seq<Record>)
    requires |states| == |told| + 1
    requires forall i | 0 <= i < |told| :: K.Kept(states[i], states[i + 1], [told[i]]) && Sparing(states[i], told[i])
    ensures forall p | p in P.Protected(states[0]) :: p in states[|told|] && states[|told|][p] == states[0][p]
  {
    if told != [] {
      var n := |told| - 1;
      ProtectedSurvive(states[..n + 1], told[..n]);
      assert K.Kept(states[n], states[n + 1], [told[n]]) && Sparing(states[n], told[n]);
    }
  }
}
