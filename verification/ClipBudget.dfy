/**
 The scroll records of one output. Clay keeps a fixed number of scroll records and
 loses track of positions when they run out, so a pass first reserves one for every
 scroll container of the trees it may declare, gives the rest to decorated hosts
 that would like a clip, and abandons the frame if a declaration still exceeds the
 total.
 */
module ClipBudget {
  const SCROLLS_OUTPUT_MAX := 100
  const INSPECTOR_RECORDS := 3

  /** The counters of a declare_band. */
  datatype Band = Band(hostLeft: nat, declared: nat, exhausted: bool)

  /** What a pass does with records: configure a scroll container, ask a clip for a host
      whose element then clips or does not, or configure an element that never clips. */
  datatype Op = Scroll | Host(clips: bool) | Plain

  /** native_configure */
  function Configure(b: Band, clip: bool): Band {
    if b.exhausted || !clip then b
    else b.(declared := b.declared + 1, exhausted := b.declared == SCROLLS_OUTPUT_MAX)
  }

  /** host_clip, then the element's own configuration. */
  function Take(b: Band, op: Op): Band {
    match op
    case Scroll => Configure(b, true)
    case Host(clips) => if b.hostLeft > 0 then Configure(b.(hostLeft := b.hostLeft - 1), clips) else b
    case Plain => b
  }

  function Run(b: Band, ops: seq<Op>): Band {
    if ops == [] then b else Take(Run(b, ops[..|ops| - 1]), ops[|ops| - 1])
  }

  /** The band a pass starts with, for so many reserved records. */
  function Prepared(scrolls: nat, inspector: nat): Band
    requires scrolls + inspector <= SCROLLS_OUTPUT_MAX
  {
    Band(SCROLLS_OUTPUT_MAX - scrolls - inspector, inspector, false)
  }

  function Scrolls(ops: seq<Op>): nat {
    if ops == [] then 0 else Scrolls(ops[..|ops| - 1]) + if ops[|ops| - 1].Scroll? then 1 else 0
  }

  lemma {:induction false} RunConcat(b: Band, xs: seq<Op>, ys: seq<Op>)
    ensures Run(b, xs + ys) == Run(Run(b, xs), ys)
    decreases |ys|
  {
    if ys == [] {
      assert xs + ys == xs;
    } else {
      assert (xs + ys)[..|xs + ys| - 1] == xs + ys[..|ys| - 1];
      RunConcat(b, xs, ys[..|ys| - 1]);
    }
  }

  lemma {:induction false} ScrollsConcat(xs: seq<Op>, ys: seq<Op>)
    ensures Scrolls(xs + ys) == Scrolls(xs) + Scrolls(ys)
    decreases |ys|
  {
    if ys == [] {
      assert xs + ys == xs;
    } else {
      assert (xs + ys)[..|xs + ys| - 1] == xs + ys[..|ys| - 1];
      ScrollsConcat(xs, ys[..|ys| - 1]);
    }
  }

  /** Records declared, left to hosts and reserved but not declared yet never exceed the
      total: no host takes a record a scroll container was promised. */
  lemma {:induction false} HostsLeaveReservations(scrolls: nat, inspector: nat, ops: seq<Op>)
    requires scrolls + inspector <= SCROLLS_OUTPUT_MAX && Scrolls(ops) <= scrolls
    ensures var b := Run(Prepared(scrolls, inspector), ops);
            !b.exhausted && b.declared + b.hostLeft + (scrolls - Scrolls(ops)) <= SCROLLS_OUTPUT_MAX
    decreases |ops|
  {
    if ops != [] { HostsLeaveReservations(scrolls, inspector, ops[..|ops| - 1]); }
  }

  /** From counters that promise no more than fits, every scroll container adds to what is
      declared until the pass is exhausted. */
  lemma {:induction false} ScrollsAreCounted(b: Band, ops: seq<Op>)
    requires !b.exhausted && b.declared <= SCROLLS_OUTPUT_MAX
    ensures var e := Run(b, ops);
            e.exhausted || (b.declared + Scrolls(ops) <= e.declared <= SCROLLS_OUTPUT_MAX)
    decreases |ops|
  {
    if ops != [] { ScrollsAreCounted(b, ops[..|ops| - 1]); }
  }

  /** So many requests of hosts that clip. */
  function Asks(n: nat): seq<Op> {
    seq(n, i => Host(true))
  }

  lemma {:induction false} AsksScrollNothing(n: nat)
    ensures Scrolls(Asks(n)) == 0
    decreases n
  {
    if n > 0 {
      assert Asks(n)[..n - 1] == Asks(n - 1);
      AsksScrollNothing(n - 1);
    }
  }

  lemma {:induction false} AsksTakeAll(b: Band, n: nat)
    requires !b.exhausted && n <= b.hostLeft && b.declared + n <= SCROLLS_OUTPUT_MAX
    ensures Run(b, Asks(n)) == Band(b.hostLeft - n, b.declared + n, false)
    decreases n
  {
    if n > 0 {
      assert Asks(n)[..n - 1] == Asks(n - 1);
      AsksTakeAll(b, n - 1);
    }
  }

  /** The clips a pass configures when so many hosts may clip: every scroll container's, and
      those of the hosts that ask first and clip. */
  function Clips(ops: seq<Op>, hosts: nat): nat {
    if ops == [] then 0
    else
      var last := ops[|ops| - 1];
      Clips(ops[..|ops| - 1], hosts) +
      if last.Scroll? || (last.Host? && last.clips && Asked(ops[..|ops| - 1]) < hosts) then 1 else 0
  }

  function Asked(ops: seq<Op>): nat {
    if ops == [] then 0 else Asked(ops[..|ops| - 1]) + if ops[|ops| - 1].Host? then 1 else 0
  }

  /** Where a pass stands: what it declared, and the host clips that are left. */
  lemma {:induction false} ClipsAreCounted(b: Band, ops: seq<Op>)
    requires !b.exhausted && b.declared <= SCROLLS_OUTPUT_MAX
    ensures var e := Run(b, ops);
            && (e.exhausted <==> b.declared + Clips(ops, b.hostLeft) > SCROLLS_OUTPUT_MAX)
            && (!e.exhausted ==> e.declared == b.declared + Clips(ops, b.hostLeft))
            && e.hostLeft == if Asked(ops) < b.hostLeft then b.hostLeft - Asked(ops) else 0
    decreases |ops|
  {
    if ops != [] { ClipsAreCounted(b, ops[..|ops| - 1]); }
  }

  /** A pass as it stands is exhausted if and only if its scroll containers, the clips of the
      hosts that got one and the inspector's records exceed the total. */
  lemma ExhaustedIffClipsExceed(scrolls: nat, inspector: nat, ops: seq<Op>)
    requires scrolls + inspector <= SCROLLS_OUTPUT_MAX
    ensures Run(Prepared(scrolls, inspector), ops).exhausted
       <==> inspector + Clips(ops, SCROLLS_OUTPUT_MAX - scrolls - inspector) > SCROLLS_OUTPUT_MAX
  {
    ClipsAreCounted(Prepared(scrolls, inspector), ops);
  }

  /** A pass that declares more scroll containers than it reserved is the one that host
      requests put in front of it can exhaust; one that does not, none can. */
  lemma {:induction false} ExhaustibleIffOverReserved(scrolls: nat, inspector: nat, ops: seq<Op>)
    requires scrolls + inspector <= SCROLLS_OUTPUT_MAX
    ensures Scrolls(ops) <= scrolls ==>
              forall more | Scrolls(more) == 0 :: !Run(Prepared(scrolls, inspector), more + ops).exhausted
    ensures Scrolls(ops) > scrolls ==>
              exists more :: Scrolls(more) == 0 && Run(Prepared(scrolls, inspector), more + ops).exhausted
  {
    var b := Prepared(scrolls, inspector);
    if Scrolls(ops) <= scrolls {
      forall more | Scrolls(more) == 0 ensures !Run(b, more + ops).exhausted {
        ScrollsConcat(more, ops);
        HostsLeaveReservations(scrolls, inspector, more + ops);
      }
    } else {
      var more := Asks(b.hostLeft);
      AsksScrollNothing(b.hostLeft);
      AsksTakeAll(b, b.hostLeft);
      RunConcat(b, more, ops);
      ScrollsAreCounted(Run(b, more), ops);
      assert Run(b, more + ops).exhausted;
    }
  }

  // --- trees ---

  datatype CountedClient = CountedClient(here: bool, titlebars: seq<nat>)

  /** What the output's trees hold: for each drawin whether the output hosts it and its scroll
      containers, each client's titlebars, and the layouts of its screens. */
  datatype World = World(drawins: seq<(bool, nat)>, clients: seq<CountedClient>, screens: seq<nat>)

  /** A part of a pass: a widget tree, or what is declared outside of every tree. */
  datatype Part =
    | DrawinTree(drawin: nat) | Titlebar(client: nat, bar: nat) | ScreenLayout(screen: nat)
    | Outside(n: nat)

  /** The output's own: a hosted drawin's tree, a titlebar of a client that is here, a layout. */
  predicate Owns(w: World, p: Part) {
    match p
    case DrawinTree(i) => i < |w.drawins| && w.drawins[i].0
    case Titlebar(c, b) => c < |w.clients| && w.clients[c].here && b < |w.clients[c].titlebars|
    case ScreenLayout(i) => i < |w.screens|
    case Outside(_) => true
  }

  function ScrollsOf(w: World, p: Part): nat
    requires Owns(w, p)
  {
    match p
    case DrawinTree(i) => w.drawins[i].1
    case Titlebar(c, b) => w.clients[c].titlebars[b]
    case ScreenLayout(i) => w.screens[i]
    case Outside(_) => 0
  }

  /** The declaration of one part: which, and what it does in its own order. */
  datatype Declaration = Declaration(part: Part, ops: seq<Op>)

  function OpsOf(ds: seq<Declaration>): seq<Op> {
    if ds == [] then [] else OpsOf(ds[..|ds| - 1]) + ds[|ds| - 1].ops
  }

  /** Each part is the output's, is declared at most once, and declares no more scroll
      containers than it has. */
  ghost predicate OnceEach(ds: seq<Declaration>, w: World) {
    && (forall i | 0 <= i < |ds| :: Owns(w, ds[i].part) && Scrolls(ds[i].ops) <= ScrollsOf(w, ds[i].part))
    && (forall i, j | 0 <= i < j < |ds| :: ds[i].part != ds[j].part)
  }

  /** No pass over the world exhausts the band, whatever its order and its host requests. */
  ghost predicate Admits(b: Band, w: World) {
    forall ds | OnceEach(ds, w) :: !Run(b, OpsOf(ds)).exhausted
  }

  function Total(ns: seq<nat>): nat {
    if ns == [] then 0 else Total(ns[..|ns| - 1]) + ns[|ns| - 1]
  }

  function DrawinTotal(ds: seq<(bool, nat)>): nat {
    if ds == [] then 0 else DrawinTotal(ds[..|ds| - 1]) + if ds[|ds| - 1].0 then ds[|ds| - 1].1 else 0
  }

  function ClientTotal(cs: seq<CountedClient>): nat {
    if cs == [] then 0 else ClientTotal(cs[..|cs| - 1]) + if cs[|cs| - 1].here then Total(cs[|cs| - 1].titlebars) else 0
  }

  function Count(w: World): nat { DrawinTotal(w.drawins) + ClientTotal(w.clients) + Total(w.screens) }

  lemma {:induction false} TotalWithout(ns: seq<nat>, i: nat)
    requires i < |ns|
    ensures Total(ns) == Total(ns[i := 0]) + ns[i]
    decreases |ns|
  {
    if i < |ns| - 1 {
      TotalWithout(ns[..|ns| - 1], i);
      assert ns[i := 0][..|ns| - 1] == ns[..|ns| - 1][i := 0];
    } else {
      assert ns[i := 0][..|ns| - 1] == ns[..|ns| - 1];
    }
  }

  lemma {:induction false} DrawinTotalWithout(ds: seq<(bool, nat)>, i: nat)
    requires i < |ds| && ds[i].0
    ensures DrawinTotal(ds) == DrawinTotal(ds[i := (true, 0)]) + ds[i].1
    decreases |ds|
  {
    if i < |ds| - 1 {
      DrawinTotalWithout(ds[..|ds| - 1], i);
      assert ds[i := (true, 0)][..|ds| - 1] == ds[..|ds| - 1][i := (true, 0)];
    } else {
      assert ds[i := (true, 0)][..|ds| - 1] == ds[..|ds| - 1];
    }
  }

  /** The client with one titlebar's containers taken away. */
  function Without(c: CountedClient, b: nat): CountedClient
    requires b < |c.titlebars|
  {
    c.(titlebars := c.titlebars[b := 0])
  }

  lemma {:induction false} ClientTotalWithout(cs: seq<CountedClient>, i: nat, b: nat)
    requires i < |cs| && cs[i].here && b < |cs[i].titlebars|
    ensures ClientTotal(cs) == ClientTotal(cs[i := Without(cs[i], b)]) + cs[i].titlebars[b]
    decreases |cs|
  {
    var less := cs[i := Without(cs[i], b)];
    if i < |cs| - 1 {
      ClientTotalWithout(cs[..|cs| - 1], i, b);
      assert less[..|cs| - 1] == cs[..|cs| - 1][i := Without(cs[i], b)];
    } else {
      assert less[..|cs| - 1] == cs[..|cs| - 1];
      TotalWithout(cs[i].titlebars, b);
    }
  }

  /** The world with one part's scroll containers taken away. */
  function Emptied(w: World, p: Part): World
    requires Owns(w, p)
  {
    match p
    case DrawinTree(i) => w.(drawins := w.drawins[i := (true, 0)])
    case Titlebar(c, b) => w.(clients := w.clients[c := Without(w.clients[c], b)])
    case ScreenLayout(i) => w.(screens := w.screens[i := 0])
    case Outside(_) => w
  }

  lemma EmptiedCounts(w: World, p: Part)
    requires Owns(w, p)
    ensures Count(w) == Count(Emptied(w, p)) + ScrollsOf(w, p)
  {
    match p
    case DrawinTree(i) => DrawinTotalWithout(w.drawins, i);
    case Titlebar(c, b) => ClientTotalWithout(w.clients, c, b);
    case ScreenLayout(i) => TotalWithout(w.screens, i);
    case Outside(_) =>
  }

  lemma EmptiedKeeps(w: World, p: Part, q: Part)
    requires Owns(w, p) && Owns(w, q) && p != q
    ensures Owns(Emptied(w, p), q) && ScrollsOf(Emptied(w, p), q) == ScrollsOf(w, q)
  {
  }

  /** A pass over the world declares no more scroll containers than are counted. */
  lemma {:induction false} DeclaredWithinCount(ds: seq<Declaration>, w: World)
    requires OnceEach(ds, w)
    ensures Scrolls(OpsOf(ds)) <= Count(w)
    decreases |ds|
  {
    if ds != [] {
      var before, d := ds[..|ds| - 1], ds[|ds| - 1];
      forall i | 0 <= i < |before|
        ensures Owns(Emptied(w, d.part), before[i].part)
                && ScrollsOf(Emptied(w, d.part), before[i].part) == ScrollsOf(w, before[i].part)
      {
        EmptiedKeeps(w, d.part, before[i].part);
      }
      DeclaredWithinCount(before, Emptied(w, d.part));
      ScrollsConcat(OpsOf(before), d.ops);
      EmptiedCounts(w, d.part);
    }
  }

  // --- a pass that declares all that is counted ---

  lemma {:induction false} OpsOfConcat(xs: seq<Declaration>, ys: seq<Declaration>)
    ensures OpsOf(xs + ys) == OpsOf(xs) + OpsOf(ys)
    decreases |ys|
  {
    if ys == [] {
      assert xs + ys == xs;
    } else {
      assert (xs + ys)[..|xs + ys| - 1] == xs + ys[..|ys| - 1];
      OpsOfConcat(xs, ys[..|ys| - 1]);
    }
  }

  lemma AppendScrolls(xs: seq<Declaration>, ys: seq<Declaration>)
    ensures Scrolls(OpsOf(xs + ys)) == Scrolls(OpsOf(xs)) + Scrolls(OpsOf(ys))
  {
    OpsOfConcat(xs, ys);
    ScrollsConcat(OpsOf(xs), OpsOf(ys));
  }

  lemma OpsOfOne(d: Declaration)
    ensures OpsOf([d]) == d.ops
  {
    assert [d][..0] == [];
    assert OpsOf([]) + d.ops == d.ops;
  }

  function Repeated(n: nat): seq<Op> {
    seq(n, i => Scroll)
  }

  lemma {:induction false} RepeatedScrolls(n: nat)
    ensures Scrolls(Repeated(n)) == n
    decreases n
  {
    if n > 0 {
      assert Repeated(n)[..n - 1] == Repeated(n - 1);
      RepeatedScrolls(n - 1);
    }
  }

  lemma OnceEachAppends(xs: seq<Declaration>, ys: seq<Declaration>, w: World)
    requires OnceEach(xs, w) && OnceEach(ys, w)
    requires forall i, j | 0 <= i < |xs| && 0 <= j < |ys| :: xs[i].part != ys[j].part
    ensures OnceEach(xs + ys, w)
  {
    var ds := xs + ys;
    forall i, j | 0 <= i < j < |ds| ensures ds[i].part != ds[j].part {
      if i < |xs| <= j { assert xs[i].part != ys[j - |xs|].part; }
    }
  }

  /** One more part, declared with all its containers behind what is declared already. */
  lemma DeclareNext(ds: seq<Declaration>, w: World, p: Part) returns (r: seq<Declaration>)
    requires OnceEach(ds, w) && Owns(w, p) && forall i | 0 <= i < |ds| :: ds[i].part != p
    ensures OnceEach(r, w) && |r| == |ds| + 1 && r[..|ds|] == ds && r[|ds|].part == p
    ensures Scrolls(OpsOf(r)) == Scrolls(OpsOf(ds)) + ScrollsOf(w, p)
  {
    var d := Declaration(p, Repeated(ScrollsOf(w, p)));
    RepeatedScrolls(ScrollsOf(w, p));
    OnceEachAppends(ds, [d], w);
    AppendScrolls(ds, [d]);
    OpsOfOne(d);
    r := ds + [d];
  }

  lemma {:induction false} DrawinPass(w: World, n: nat) returns (ds: seq<Declaration>)
    requires n <= |w.drawins|
    ensures OnceEach(ds, w) && Scrolls(OpsOf(ds)) == DrawinTotal(w.drawins[..n])
    ensures forall i | 0 <= i < |ds| :: ds[i].part.DrawinTree? && ds[i].part.drawin < n
    decreases n
  {
    ds := [];
    if n > 0 {
      ds := DrawinPass(w, n - 1);
      assert w.drawins[..n][..n - 1] == w.drawins[..n - 1];
      if w.drawins[n - 1].0 { ds := DeclareNext(ds, w, DrawinTree(n - 1)); }
    }
  }

  lemma {:induction false} BarPass(w: World, c: nat, n: nat) returns (ds: seq<Declaration>)
    requires c < |w.clients| && w.clients[c].here && n <= |w.clients[c].titlebars|
    ensures OnceEach(ds, w) && Scrolls(OpsOf(ds)) == Total(w.clients[c].titlebars[..n])
    ensures forall i | 0 <= i < |ds| :: ds[i].part.Titlebar? && ds[i].part.client == c && ds[i].part.bar < n
    decreases n
  {
    ds := [];
    if n > 0 {
      ds := BarPass(w, c, n - 1);
      assert w.clients[c].titlebars[..n][..n - 1] == w.clients[c].titlebars[..n - 1];
      ds := DeclareNext(ds, w, Titlebar(c, n - 1));
    }
  }

  lemma {:induction false} ClientPass(w: World, n: nat) returns (ds: seq<Declaration>)
    requires n <= |w.clients|
    ensures OnceEach(ds, w) && Scrolls(OpsOf(ds)) == ClientTotal(w.clients[..n])
    ensures forall i | 0 <= i < |ds| :: ds[i].part.Titlebar? && ds[i].part.client < n
    decreases n
  {
    ds := [];
    if n > 0 {
      ds := ClientPass(w, n - 1);
      assert w.clients[..n][..n - 1] == w.clients[..n - 1];
      if w.clients[n - 1].here {
        var bars := w.clients[n - 1].titlebars;
        var more := BarPass(w, n - 1, |bars|);
        assert bars[..|bars|] == bars;
        OnceEachAppends(ds, more, w);
        AppendScrolls(ds, more);
        ds := ds + more;
      }
    }
  }

  lemma {:induction false} ScreenPass(w: World, n: nat) returns (ds: seq<Declaration>)
    requires n <= |w.screens|
    ensures OnceEach(ds, w) && Scrolls(OpsOf(ds)) == Total(w.screens[..n])
    ensures forall i | 0 <= i < |ds| :: ds[i].part.ScreenLayout? && ds[i].part.screen < n
    decreases n
  {
    ds := [];
    if n > 0 {
      ds := ScreenPass(w, n - 1);
      assert w.screens[..n][..n - 1] == w.screens[..n - 1];
      ds := DeclareNext(ds, w, ScreenLayout(n - 1));
    }
  }

  /** One pass behind another that declares other parts. */
  lemma Together(xs: seq<Declaration>, ys: seq<Declaration>, w: World) returns (ds: seq<Declaration>)
    requires OnceEach(xs, w) && OnceEach(ys, w)
    requires forall i, j | 0 <= i < |xs| && 0 <= j < |ys| :: xs[i].part != ys[j].part
    ensures ds == xs + ys && OnceEach(ds, w) && Scrolls(OpsOf(ds)) == Scrolls(OpsOf(xs)) + Scrolls(OpsOf(ys))
  {
    OnceEachAppends(xs, ys, w);
    AppendScrolls(xs, ys);
    ds := xs + ys;
  }

  lemma AllScreens(w: World) returns (ds: seq<Declaration>)
    ensures OnceEach(ds, w) && Scrolls(OpsOf(ds)) == Total(w.screens)
    ensures forall i | 0 <= i < |ds| :: ds[i].part.ScreenLayout?
  {
    assert w.screens[..|w.screens|] == w.screens;
    ds := ScreenPass(w, |w.screens|);
  }

  lemma AllWidgets(w: World) returns (ds: seq<Declaration>)
    ensures OnceEach(ds, w) && Scrolls(OpsOf(ds)) == DrawinTotal(w.drawins) + ClientTotal(w.clients)
    ensures forall i | 0 <= i < |ds| :: ds[i].part.DrawinTree? || ds[i].part.Titlebar?
  {
    var drawins := DrawinPass(w, |w.drawins|);
    var clients := ClientPass(w, |w.clients|);
    assert w.drawins[..|w.drawins|] == w.drawins && w.clients[..|w.clients|] == w.clients;
    ds := Together(drawins, clients, w);
  }

  lemma FullPass(w: World) returns (ds: seq<Declaration>)
    ensures OnceEach(ds, w) && Scrolls(OpsOf(ds)) == Count(w)
    ensures forall i | 0 <= i < |ds| :: !ds[i].part.Outside?
  {
    var widgets := AllWidgets(w);
    var screens := AllScreens(w);
    ds := Together(widgets, screens, w);
  }

  // --- the reservation ---

  lemma {:induction false} ClipsAtMost(ops: seq<Op>, hosts: nat)
    ensures Clips(ops, hosts) <= Scrolls(ops) + (if Asked(ops) < hosts then Asked(ops) else hosts)
    decreases |ops|
  {
    if ops != [] { ClipsAtMost(ops[..|ops| - 1], hosts); }
  }

  lemma {:induction false} AsksClip(n: nat, hosts: nat)
    requires n <= hosts
    ensures Clips(Asks(n), hosts) == n && Asked(Asks(n)) == n
    decreases n
  {
    if n > 0 {
      assert Asks(n)[..n - 1] == Asks(n - 1);
      AsksClip(n - 1, hosts);
    }
  }

  lemma {:induction false} ClipsAtLeast(xs: seq<Op>, ys: seq<Op>, hosts: nat)
    ensures Clips(xs + ys, hosts) >= Clips(xs, hosts) + Scrolls(ys)
    decreases |ys|
  {
    if ys == [] {
      assert xs + ys == xs;
    } else {
      assert (xs + ys)[..|xs + ys| - 1] == xs + ys[..|ys| - 1];
      ClipsAtLeast(xs, ys[..|ys| - 1], hosts);
    }
  }

  /** The pass in which as many hosts as may ask and clip, and then everything is declared. */
  lemma GreedyPass(w: World, hosts: nat) returns (ds: seq<Declaration>)
    ensures OnceEach(ds, w) && Clips(OpsOf(ds), hosts) >= hosts + Count(w)
  {
    var full := FullPass(w);
    var d := Declaration(Outside(0), Asks(hosts));
    AsksScrollNothing(hosts);
    OnceEachAppends([d], full, w);
    OpsOfConcat([d], full);
    OpsOfOne(d);
    AsksClip(hosts, hosts);
    ClipsAtLeast(Asks(hosts), OpsOf(full), hosts);
    ds := [d] + full;
  }

  /** Every pass that declares each tree of the output at most once, in whatever order and
      with whatever host requests, stays within the records, if and only if those left to
      hosts, the inspector's and all the trees' scroll containers fit together. */
  lemma AdmitsIffReserved(w: World, hosts: nat, inspector: nat)
    requires inspector <= SCROLLS_OUTPUT_MAX
    ensures Admits(Band(hosts, inspector, false), w) <==> hosts + inspector + Count(w) <= SCROLLS_OUTPUT_MAX
  {
    var b := Band(hosts, inspector, false);
    if hosts + inspector + Count(w) <= SCROLLS_OUTPUT_MAX {
      forall ds | OnceEach(ds, w) ensures !Run(b, OpsOf(ds)).exhausted {
        DeclaredWithinCount(ds, w);
        ClipsAtMost(OpsOf(ds), hosts);
        ClipsAreCounted(b, OpsOf(ds));
      }
    } else {
      var ds := GreedyPass(w, hosts);
      ClipsAreCounted(b, OpsOf(ds));
      assert Run(b, OpsOf(ds)).exhausted;
    }
  }

  /** A reservation leaves the hosts as many records as no pass can miss; where the trees do
      not fit, no share of the hosts is small enough. */
  lemma ReservationIsExact(w: World, inspector: nat)
    requires inspector <= SCROLLS_OUTPUT_MAX
    ensures if Count(w) + inspector <= SCROLLS_OUTPUT_MAX then
              var b := Prepared(Count(w), inspector); Admits(b, w) && !Admits(b.(hostLeft := b.hostLeft + 1), w)
            else forall hosts: nat :: !Admits(Band(hosts, inspector, false), w)
  {
    if Count(w) + inspector <= SCROLLS_OUTPUT_MAX {
      var b := Prepared(Count(w), inspector);
      AdmitsIffReserved(w, b.hostLeft, inspector);
      AdmitsIffReserved(w, b.hostLeft + 1, inspector);
    } else {
      forall hosts: nat ensures !Admits(Band(hosts, inspector, false), w) { AdmitsIffReserved(w, hosts, inspector); }
    }
  }

  /** Declaring a counted tree a second time can abandon the frame: a lock cover that is
      also an attached popup is declared by both passes. */
  lemma {:induction false} SecondDeclarationCanExhaust(scrolls: nat, inspector: nat, ops: seq<Op>)
    requires scrolls + inspector <= SCROLLS_OUTPUT_MAX && Scrolls(ops) == scrolls
             && 2 * scrolls + inspector > SCROLLS_OUTPUT_MAX
    ensures var d := Declaration(DrawinTree(0), ops);
            && OnceEach([d], World([(true, scrolls)], [], []))
            && Run(Prepared(scrolls, inspector), OpsOf([d, d])).exhausted
  {
    var d := Declaration(DrawinTree(0), ops);
    assert [d, d] == [d] + [d];
    OpsOfConcat([d], [d]);
    OpsOfOne(d);
    ScrollsConcat(ops, ops);
    ScrollsAreCounted(Prepared(scrolls, inspector), ops + ops);
  }

  // --- the counters themselves ---

  /** Room for so many clips that are still to be configured, beside what hosts may take. */
  predicate Fits(b: Band, promised: nat) {
    !b.exhausted && b.declared + b.hostLeft + promised <= SCROLLS_OUTPUT_MAX
  }

  class Recording {
    var hostLeft: nat
    var declared: nat
    var exhausted: bool
    var inspectorRefused: bool

    function Model(): Band
      reads this
    {
      Band(hostLeft, declared, exhausted)
    }

    /** clips_prepare: hidden trees count too, so showing one later takes nothing from a host. */
    method ClipsPrepare(drawins: seq<(bool, nat)>, clients: seq<CountedClient>, screens: seq<nat>, inspecting: bool)
      returns (ok: bool)
      modifies this
      ensures var scrolls := DrawinTotal(drawins) + ClientTotal(clients) + Total(screens);
              var inspector := if inspecting then INSPECTOR_RECORDS else 0;
              && (ok <==> scrolls + inspector <= SCROLLS_OUTPUT_MAX)
              && (ok && !old(exhausted) ==> Model() == Prepared(scrolls, inspector))
              && (!ok ==> exhausted && inspectorRefused == inspecting)
      ensures var w := World(drawins, clients, screens);
              var inspector := if inspecting then INSPECTOR_RECORDS else 0;
              && (ok && !old(exhausted) ==> Admits(Model(), w) && declared == inspector)
              && (ok ==> !Admits(Band(hostLeft + 1, inspector, false), w))
              && (!ok ==> forall hosts: nat :: !Admits(Band(hosts, inspector, false), w))
    {
      var scrolls := 0;
      for i := 0 to |drawins|
        invariant scrolls == DrawinTotal(drawins[..i])
      {
        assert drawins[..i + 1][..i] == drawins[..i];
        if drawins[i].0 { scrolls := scrolls + drawins[i].1; }
      }
      assert drawins[..|drawins|] == drawins;
      for i := 0 to |clients|
        invariant scrolls == DrawinTotal(drawins) + ClientTotal(clients[..i])
      {
        assert clients[..i + 1][..i] == clients[..i];
        if !clients[i].here { continue; }
        var bars := clients[i].titlebars;
        for b := 0 to |bars|
          invariant scrolls == DrawinTotal(drawins) + ClientTotal(clients[..i]) + Total(bars[..b])
        {
          assert bars[..b + 1][..b] == bars[..b];
          scrolls := scrolls + bars[b];
        }
        assert bars[..|bars|] == bars;
      }
      assert clients[..|clients|] == clients;
      for i := 0 to |screens|
        invariant scrolls == DrawinTotal(drawins) + ClientTotal(clients) + Total(screens[..i])
      {
        assert screens[..i + 1][..i] == screens[..i];
        scrolls := scrolls + screens[i];
      }
      assert screens[..|screens|] == screens;
      var inspector := if inspecting then INSPECTOR_RECORDS else 0;
      ReservationIsExact(World(drawins, clients, screens), inspector);
      if scrolls + inspector > SCROLLS_OUTPUT_MAX {
        exhausted := true;
        inspectorRefused := inspector != 0;
        return false;
      }
      hostLeft := SCROLLS_OUTPUT_MAX - scrolls - inspector;
      declared := inspector;
      ok := true;
    }

    /** A granted host's clip is promised a record of its own, and every earlier promise
        still holds; a refused one changes nothing. */
    method HostClip(ghost promised: nat) returns (granted: bool)
      modifies this`hostLeft
      ensures granted <==> old(hostLeft) > 0
      ensures Model() == old(Model()).(hostLeft := hostLeft) && hostLeft + (if granted then 1 else 0) == old(hostLeft)
      ensures Fits(old(Model()), promised) ==> Fits(Model(), if granted then promised + 1 else promised)
    {
      granted := hostLeft > 0;
      if granted { hostLeft := hostLeft - 1; }
    }

    /** A promised clip uses its own promise up and takes nothing from the others; without
        a promise it is a clip beyond the total that abandons the pass. */
    method NativeConfigure(clip: bool, ghost promised: nat)
      modifies this
      ensures Model() == Configure(old(Model()), clip)
      ensures Fits(old(Model()), promised) && clip && promised > 0 ==> Fits(Model(), promised - 1)
      ensures Fits(old(Model()), promised) && !clip ==> Fits(Model(), promised)
      ensures exhausted && !old(exhausted) ==> clip && !Fits(old(Model()), 1)
    {
      if exhausted { return; }
      if clip {
        declared := declared + 1;
        if declared - 1 == SCROLLS_OUTPUT_MAX { exhausted := true; }
      }
    }

    /** Whatever is declared, promised records are used up by scroll containers only. */
    method Declare(op: Op, ghost promised: nat)
      modifies this
      ensures Model() == Take(old(Model()), op)
      ensures Fits(old(Model()), promised) && (op.Scroll? ==> promised > 0) ==>
                Fits(Model(), if op.Scroll? then promised - 1 else promised)
    {
      match op
      case Scroll => NativeConfigure(true, promised);
      case Host(clips) =>
        var granted := HostClip(promised);
        NativeConfigure(granted && clips, if granted then promised + 1 else promised);
      case Plain => NativeConfigure(false, promised);
    }
  }
}
