// Sharing out virtual interfaces among channel types when the firmware grants fewer than
// were asked for (ef100_netdev.c, mcdi_functions.c).

module ViChannels {
  import opened Arithmetic

  datatype Channels = Channels(combined: nat, extra: nat, rxOnly: nat, txOnly: nat, xdp: nat)

  /** TX queues of a normal and of an XDP channel, whether XDP transmit is in use, and the
      VIs asked for on top on behalf of other clients. */
  datatype Config = Config(txPerChannel: nat, xdpTxPerChannel: nat, xdpTx: bool, onload: nat)

  /** The queues of `n` channels. */
  function Queues(n: nat, q: nat): nat { n * q }

  /** The VIs that a set of channels uses up. */
  function Cost(cfg: Config, ch: Channels): nat {
    Queues(ch.combined, cfg.txPerChannel) + Queues(ch.extra, cfg.txPerChannel) + ch.rxOnly
    + Queues(ch.txOnly, cfg.txPerChannel) + Queues(ch.xdp, cfg.xdpTxPerChannel)
  }

  /** No more channels than wanted; XDP channels are all there or not at all. */
  predicate Within(ch: Channels, wanted: Channels) {
    && ch.combined <= wanted.combined && ch.extra <= wanted.extra && ch.rxOnly <= wanted.rxOnly
    && ch.txOnly <= wanted.txOnly && (ch.xdp == 0 || ch.xdp == wanted.xdp)
  }

  /** Combined channels matter most, then extra, RX-only, TX-only and XDP channels. */
  predicate NotAbove(a: Channels, b: Channels) {
    a.combined < b.combined || (a.combined == b.combined &&
    (a.extra < b.extra || (a.extra == b.extra &&
    (a.rxOnly < b.rxOnly || (a.rxOnly == b.rxOnly &&
    (a.txOnly < b.txOnly || (a.txOnly == b.txOnly && a.xdp <= b.xdp)))))))
  }

  function Min(a: nat, b: nat): nat { if a < b then a else b }

  /** How many of `n` channels of `q` queues get their queues out of `avail`. */
  function Share(n: nat, q: nat, avail: nat): nat
    requires q > 0
  {
    (Min(Queues(n, q), avail) - Min(Queues(n, q), avail) % q) / q
  }

  lemma ShareIsQuotient(n: nat, q: nat, avail: nat)
    requires q > 0
    ensures var m := Min(Queues(n, q), avail); Share(n, q, avail) == m / q && m - m % q == Queues(m / q, q)
  {
    var m := Min(Queues(n, q), avail);
    DivParts(m, q);
    DivUnique(m - m % q, q, m / q, 0);
  }

  lemma QueuesGrow(a: nat, b: nat, q: nat)
    ensures a <= b ==> Queues(a, q) <= Queues(b, q)
    ensures Queues(a + 1, q) == Queues(a, q) + q
  {
    Monotone(a, b, q);
  }

  lemma ShareFits(n: nat, q: nat, avail: nat)
    requires q > 0
    ensures Share(n, q, avail) <= n && Queues(Share(n, q, avail), q) <= avail
    ensures Queues(Share(n, q, avail), q) == Min(Queues(n, q), avail) - Min(Queues(n, q), avail) % q
  {
    ShareIsQuotient(n, q, avail);
    QueuesGrow(n, n, q);
    QueuesGrow(n + 1, Share(n, q, avail), q);
    hide Share, Queues;
  }

  lemma ShareIsMost(n: nat, q: nat, avail: nat, k: nat)
    requires q > 0 && k <= n && Queues(k, q) <= avail
    ensures k <= Share(n, q, avail)
  {
    ShareFits(n, q, avail);
    QueuesGrow(k, n, q);
    QueuesGrow(Share(n, q, avail), k, q);
    QueuesGrow(Share(n, q, avail) + 1, k, q);
    hide Share, Queues;
  }

  lemma ShareIsGreatest(n: nat, q: nat, avail: nat)
    requires q > 0
    ensures Share(n, q, avail) <= n && Queues(Share(n, q, avail), q) <= avail
    ensures Queues(Share(n, q, avail), q) == Min(Queues(n, q), avail) - Min(Queues(n, q), avail) % q
    ensures forall k: nat | k <= n && Queues(k, q) <= avail :: k <= Share(n, q, avail)
    ensures Queues(0, q) == 0
  {
    ShareFits(n, q, avail);
    NoQueues(q);
    hide Share, Queues;
    forall k: nat | k <= n && Queues(k, q) <= avail ensures k <= Share(n, q, avail) { ShareIsMost(n, q, avail, k); }
  }

  /** The redistribution, step by step. */
  function Adjusted(cfg: Config, wanted: Channels, avail: nat): (r: Channels)
    requires cfg.txPerChannel > 0
  {
    var q := cfg.txPerChannel;
    var c := Share(wanted.combined, q, avail);
    ShareIsGreatest(wanted.combined, q, avail);
    var a1 := avail - Queues(c, q);
    var e := Share(wanted.extra, q, a1);
    ShareIsGreatest(wanted.extra, q, a1);
    var a2 := a1 - Queues(e, q);
    var r := Min(wanted.rxOnly, a2);
    var a3 := a2 - r;
    var t := Share(wanted.txOnly, q, a3);
    ShareIsGreatest(wanted.txOnly, q, a3);
    var a4 := a3 - Queues(t, q);
    Channels(c, e, r, t, if a4 < Queues(wanted.xdp, cfg.xdpTxPerChannel) then 0 else wanted.xdp)
  }

  /** The result fits the budget and is the lexicographically greatest that does. */
  lemma AdjustedIsGreatest(cfg: Config, wanted: Channels, avail: nat, other: Channels)
    requires cfg.txPerChannel > 0
    ensures Within(Adjusted(cfg, wanted, avail), wanted) && Cost(cfg, Adjusted(cfg, wanted, avail)) <= avail
    ensures Within(other, wanted) && Cost(cfg, other) <= avail ==> NotAbove(other, Adjusted(cfg, wanted, avail))
  {
    hide Share, Queues;
    var q, res := cfg.txPerChannel, Adjusted(cfg, wanted, avail);
    ShareIsGreatest(wanted.combined, q, avail);
    var a1 := avail - Queues(res.combined, q);
    ShareIsGreatest(wanted.extra, q, a1);
    var a2 := a1 - Queues(res.extra, q);
    var a3 := a2 - res.rxOnly;
    ShareIsGreatest(wanted.txOnly, q, a3);
    NoQueues(cfg.xdpTxPerChannel);
  }

  lemma OneQueue(q: nat)
    ensures Queues(1, q) == q
  {}

  lemma NoQueues(q: nat)
    ensures Queues(0, q) == 0
  {}

  /** Nothing changes when everything fits, and a second redistribution changes nothing. */
  lemma EnoughIsUnchanged(cfg: Config, wanted: Channels, avail: nat)
    requires cfg.txPerChannel > 0
    ensures Cost(cfg, wanted) <= avail ==> Adjusted(cfg, wanted, avail) == wanted
    ensures Adjusted(cfg, Adjusted(cfg, wanted, avail), avail) == Adjusted(cfg, wanted, avail)
  {
    hide Share, Adjusted;
    Settled(cfg, wanted, avail);
    AdjustedIsGreatest(cfg, wanted, avail, wanted);
    Settled(cfg, Adjusted(cfg, wanted, avail), avail);
  }

  lemma Settled(cfg: Config, wanted: Channels, avail: nat)
    requires cfg.txPerChannel > 0
    ensures Cost(cfg, wanted) <= avail ==> Adjusted(cfg, wanted, avail) == wanted
  {
    hide Share, Adjusted;
    AdjustedIsGreatest(cfg, wanted, avail, wanted);
  }

  // ---- Asking for VIs ----

  function RxChannels(ch: Channels): nat { ch.combined + ch.rxOnly + ch.extra }

  function TxChannels(ch: Channels): nat { ch.combined + ch.txOnly + ch.extra }

  function Demand(cfg: Config, ch: Channels): nat {
    var tx := Queues(TxChannels(ch), cfg.txPerChannel) + if cfg.xdpTx then Queues(ch.xdp, cfg.xdpTxPerChannel) else 0;
    if RxChannels(ch) > tx then RxChannels(ch) else tx
  }

  /** So many VIs meet the demand as give one to each RX channel, and one to each TX queue of the
      normal channels and, if they transmit, of the XDP channels; and no fewer. */
  lemma DemandIsLeast(cfg: Config, ch: Channels, vis: nat)
    ensures Demand(cfg, ch) <= vis <==>
            && ch.combined + ch.extra + ch.rxOnly <= vis
            && ch.combined * cfg.txPerChannel + ch.extra * cfg.txPerChannel + ch.txOnly * cfg.txPerChannel
               + (if cfg.xdpTx then ch.xdp * cfg.xdpTxPerChannel else 0) <= vis
  {
    Distribute(ch.combined, ch.txOnly, ch.extra, cfg.txPerChannel);
  }

  /** The redistribution counts a VI for each TX queue of a channel that has any, whether or not
      XDP channels transmit, and one for each that only receives. */
  lemma CostInVis(cfg: Config, ch: Channels)
    ensures Cost(cfg, ch) == (ch.combined + ch.extra + ch.txOnly) * cfg.txPerChannel + ch.rxOnly
                             + ch.xdp * cfg.xdpTxPerChannel
  {
    Distribute(ch.combined, ch.extra, ch.txOnly, cfg.txPerChannel);
  }

  /** After the redistribution the driver's own demand is covered by what it was given. */
  lemma AdjustedIsCovered(cfg: Config, wanted: Channels, avail: nat)
    requires cfg.txPerChannel > 0
    ensures Demand(cfg, Adjusted(cfg, wanted, avail)) <= avail
  {
    var ch, q := Adjusted(cfg, wanted, avail), cfg.txPerChannel;
    AdjustedIsGreatest(cfg, wanted, avail, ch);
    hide Adjusted;
    hide Queues;
    Distribute(ch.combined, ch.txOnly, ch.extra, q);
    AtLeastOne(ch.combined, q);
    AtLeastOne(ch.extra, q);
  }

  lemma AtLeastOne(n: nat, q: nat)
    requires q > 0
    ensures Queues(n, q) >= n
  {
    Monotone(1, q, n);
    Commute(n, q);
  }

  lemma Distribute(a: nat, b: nat, c: nat, q: nat)
    ensures Queues(a + b + c, q) == Queues(a, q) + Queues(b, q) + Queues(c, q)
  {}

  lemma Commute(a: nat, b: nat)
    ensures a * b == b * a
  {}

  datatype Rc = Ok | Again | Error

  /** The firmware's answer: the RPC's return code, and the VIs granted if it worked. */
  datatype Reply = Reply(rc: Rc, vis: nat)

  /** What comes of asking for interrupts: none, enough, a single one, or some, for which the
      channels are counted anew. */
  datatype Interrupts = NoneLeft | Enough | Single | Recounted(ch: Channels)

  /** The counts after that. */
  function Probed(ch: Channels, i: Interrupts): Channels {
    match i
    case Single => Channels(1, 0, 0, 0, 0)
    case Recounted(now) => now
    case _ => ch
  }

  /** What the environment does during one pass of the loop. */
  datatype Pass = Pass(interrupts: Interrupts, channels: bool, freed: bool, reply: Reply)

  predicate SetUp(p: Pass) { !p.interrupts.NoneLeft? && p.channels }

  lemma SingleDemand(cfg: Config)
    requires cfg.txPerChannel > 0
    ensures Demand(cfg, Channels(1, 0, 0, 0, 0)) == cfg.txPerChannel
  {
    NoQueues(cfg.xdpTxPerChannel);
    OneQueue(cfg.txPerChannel);
    hide Queues;
  }

  /** Falling back to one interrupt never asks for more than the least that is granted. */
  lemma SingleIsCovered(cfg: Config, ch: Channels, i: Interrupts, vis: nat)
    requires 0 < cfg.txPerChannel <= vis && Demand(cfg, ch) <= vis
    ensures i.Recounted? || Demand(cfg, Probed(ch, i)) <= vis
  {
    SingleDemand(cfg);
    hide Demand;
  }

  /** The pass asks again with nothing in hand. */
  predicate Repeats(p: Pass) { SetUp(p) && p.freed && p.reply.rc.Again? }

  /** Too few VIs for these channels, but at least the minimum. */
  predicate Short(cfg: Config, ch: Channels, reply: Reply) {
    reply.rc.Ok? && cfg.txPerChannel <= reply.vis < Demand(cfg, ch) + cfg.onload
  }

  /** What the loop leaves behind: return code, passes taken, VIs had, channels and limit;
      `Again` if there were no more passes. */
  datatype Outcome = Outcome(rc: Rc, used: nat, vis: nat, ch: Channels, maxVis: nat)

  /** The retry loop, pass by pass, once `vis` VIs have been had. */
  function Allocate(cfg: Config, ch: Channels, maxVis: nat, vis: nat, passes: seq<Pass>): (o: Outcome)
    requires cfg.txPerChannel > 0
    ensures o.used <= |passes|
    decreases |passes|
  {
    if passes == [] then Outcome(Again, 0, vis, ch, maxVis)
    else
      var p := passes[0];
      var now := Probed(ch, p.interrupts);
      if !SetUp(p) then Outcome(Error, 1, vis, now, maxVis)
      else if vis > 0 then Outcome(Ok, 1, vis, now, maxVis)
      else if !p.freed || p.reply.rc.Error? then Outcome(Error, 1, 0, now, maxVis)
      else
        var got := if p.reply.rc.Ok? then p.reply.vis else 0;
        if p.reply.rc.Again? || Short(cfg, now, p.reply) then
          var rest := Allocate(cfg, Adjusted(cfg, now, got), got, got, passes[1..]);
          rest.(used := rest.used + 1)
        else Outcome(Ok, 1, got, now, maxVis)
  }

  /** The channels after `passes`, all told to try again with nothing granted. */
  function AfterRepeats(cfg: Config, ch: Channels, passes: seq<Pass>): Channels
    requires cfg.txPerChannel > 0
    decreases |passes|
  {
    if passes == [] then ch
    else AfterRepeats(cfg, Adjusted(cfg, Probed(ch, passes[0].interrupts), 0), passes[1..])
  }

  /** Each pass told to try again with nothing granted makes the loop go round once more; and
      the first that is not ends it, or the one after it if the grant was short. */
  lemma {:induction false} PassesTaken(cfg: Config, ch: Channels, maxVis: nat, passes: seq<Pass>, k: nat)
    requires cfg.txPerChannel > 0 && k <= |passes| && forall i | 0 <= i < k :: Repeats(passes[i])
    requires k < |passes| ==> !Repeats(passes[k])
    ensures var o := Allocate(cfg, ch, maxVis, 0, passes);
            if k == |passes| then o.rc.Again? && o.used == k
            else
              var now := Probed(AfterRepeats(cfg, ch, passes[..k]), passes[k].interrupts);
              var more := SetUp(passes[k]) && passes[k].freed && Short(cfg, now, passes[k].reply);
              && o.used == (if more && k + 1 < |passes| then k + 2 else k + 1)
              && (o.rc.Again? <==> more && k + 1 == |passes|)
    decreases k
  {
    if k > 0 {
      var now := Probed(ch, passes[0].interrupts);
      PassesTaken(cfg, Adjusted(cfg, now, 0), 0, passes[1..], k - 1);
      assert passes[..k][1..] == passes[1..][..k - 1];
    } else if passes != [] {
      assert passes[..0] == [];
      var p, now := passes[0], Probed(ch, passes[0].interrupts);
      if SetUp(p) && p.freed && Short(cfg, now, p.reply) {
        SecondPass(cfg, Adjusted(cfg, now, p.reply.vis), p.reply.vis, p.reply.vis, passes[1..]);
      }
    }
  }

  lemma SecondPass(cfg: Config, ch: Channels, maxVis: nat, vis: nat, passes: seq<Pass>)
    requires cfg.txPerChannel > 0 && vis > 0
    ensures Allocate(cfg, ch, maxVis, vis, passes) ==
            if passes == [] then Outcome(Again, 0, vis, ch, maxVis)
            else Outcome(if SetUp(passes[0]) then Ok else Error, 1, vis, Probed(ch, passes[0].interrupts), maxVis)
  {}

  /** When it succeeds at once, there are VIs for all channels and the clients' share, or fewer
      than the minimum; when it succeeds in a second pass, the channels were cut down to what
      was granted, and their demand is covered unless the interrupts of that pass made it
      count them anew. */
  lemma AllocatedIsCovered(cfg: Config, ch: Channels, maxVis: nat, p: Pass, next: Pass)
    requires cfg.txPerChannel > 0 && SetUp(p) && p.freed && p.reply.rc.Ok?
    ensures var now, o := Probed(ch, p.interrupts), Allocate(cfg, ch, maxVis, 0, [p, next]);
            if Short(cfg, now, p.reply) then
              && o.used == 2 && o.maxVis == o.vis == p.reply.vis && (o.rc.Ok? <==> SetUp(next))
              && o.ch == Probed(Adjusted(cfg, now, p.reply.vis), next.interrupts)
              && (!next.interrupts.Recounted? ==> Demand(cfg, o.ch) <= o.vis)
            else
              && o == Outcome(Ok, 1, p.reply.vis, now, maxVis)
              && (o.vis < cfg.txPerChannel || Demand(cfg, o.ch) + cfg.onload <= o.vis)
  {
    var now, vis := Probed(ch, p.interrupts), p.reply.vis;
    assert [p, next][1..] == [next];
    if Short(cfg, now, p.reply) {
      var cut := Adjusted(cfg, now, vis);
      AdjustedIsCovered(cfg, now, vis);
      SingleIsCovered(cfg, cut, next.interrupts, vis);
      SecondPass(cfg, cut, vis, vis, [next]);
    }
    hide Adjusted, Demand, Probed;
  }

  /** A grant of nothing takes all channels away but those of XDP that need no VI. */
  lemma RepeatLeavesNone(cfg: Config, ch: Channels)
    requires cfg.txPerChannel > 0
    ensures var r := Adjusted(cfg, ch, 0);
            r.combined == r.extra == r.rxOnly == r.txOnly == 0 && (r.xdp == 0 || cfg.xdpTxPerChannel == 0)
  {
    AdjustedIsGreatest(cfg, ch, 0, ch);
    var r := Adjusted(cfg, ch, 0);
    hide Adjusted, Queues;
    AtLeastOne(r.combined, cfg.txPerChannel);
    AtLeastOne(r.extra, cfg.txPerChannel);
    AtLeastOne(r.txOnly, cfg.txPerChannel);
    if cfg.xdpTxPerChannel > 0 { AtLeastOne(r.xdp, cfg.xdpTxPerChannel); }
  }

  class Nic {
    const cfg: Config
    var nCombined: nat
    var nExtra: nat
    var nRxOnly: nat
    var nTxOnly: nat
    var nXdp: nat
    var maxVis: nat

    function State(): Channels
      reads this
    {
      Channels(nCombined, nExtra, nRxOnly, nTxOnly, nXdp)
    }

    constructor (cfg: Config, ch: Channels)
      ensures this.cfg == cfg && State() == ch && maxVis == 0
    {
      this.cfg := cfg;
      nCombined, nExtra, nRxOnly, nTxOnly, nXdp := ch.combined, ch.extra, ch.rxOnly, ch.txOnly, ch.xdp;
      maxVis := 0;
    }

    /** The fields are rewritten one after another while the budget shrinks. */
    method AdjustChannels(availVis: nat)
      requires cfg.txPerChannel > 0
      modifies this`nCombined, this`nExtra, this`nRxOnly, this`nTxOnly, this`nXdp
      ensures State() == Adjusted(cfg, old(State()), availVis)
      ensures Within(State(), old(State())) && Cost(cfg, State()) <= availVis
      ensures forall ch | Within(ch, old(State())) && Cost(cfg, ch) <= availVis :: NotAbove(ch, State())
    {
      ghost var wanted := State();
      var q, avail := cfg.txPerChannel, availVis;
      ShareIsGreatest(nCombined, q, avail);
      var viShare := Min(Queues(nCombined, q), avail);
      viShare := viShare - viShare % q;
      avail := avail - viShare;
      nCombined := viShare / q;
      ShareIsGreatest(nExtra, q, avail);
      viShare := Min(Queues(nExtra, q), avail);
      viShare := viShare - viShare % q;
      avail := avail - viShare;
      nExtra := viShare / q;
      viShare := Min(nRxOnly, avail);
      avail := avail - viShare;
      nRxOnly := viShare;
      ShareIsGreatest(nTxOnly, q, avail);
      viShare := Min(Queues(nTxOnly, q), avail);
      viShare := viShare - viShare % q;
      avail := avail - viShare;
      nTxOnly := viShare / q;
      viShare := Queues(nXdp, cfg.xdpTxPerChannel);
      if avail < viShare {
        nXdp := 0;
      }
      assert State() == Adjusted(cfg, wanted, availVis);
      hide Adjusted;
      AdjustedIsGreatest(cfg, wanted, availVis, wanted);
      forall ch | Within(ch, wanted) && Cost(cfg, ch) <= availVis ensures NotAbove(ch, State()) {
        AdjustedIsGreatest(cfg, wanted, availVis, ch);
      }
    }

    /** Asks the firmware for VIs; too few, but at least the minimum, means try again. */
    method AllocVis(reply: Reply) returns (rc: Rc, granted: nat)
      ensures granted == if reply.rc.Ok? then reply.vis else 0
      ensures cfg.txPerChannel > 0 ==>
                var short := reply.rc.Ok? && cfg.txPerChannel <= reply.vis < Demand(cfg, State()) + cfg.onload;
                rc == if short then Again else reply.rc
    {
      var rxVis := RxChannels(State());
      var txVis := Queues(TxChannels(State()), cfg.txPerChannel);
      if cfg.xdpTx {
        txVis := txVis + Queues(nXdp, cfg.xdpTxPerChannel);
      }
      var maxVis := (if rxVis > txVis then rxVis else txVis) + cfg.onload;
      var minVis := cfg.txPerChannel;
      rc, granted := reply.rc, if reply.rc.Ok? then reply.vis else 0;
      if granted >= minVis && granted < maxVis {
        rc := Again;
      }
    }

    method ProbeInterrupts(i: Interrupts) returns (ok: bool)
      modifies this`nCombined, this`nExtra, this`nRxOnly, this`nTxOnly, this`nXdp
      ensures State() == Probed(old(State()), i) && ok == !i.NoneLeft?
      ensures (i.Single? ==> State() == Channels(1, 0, 0, 0, 0)) && (i.Recounted? ==> State() == i.ch)
      ensures i.NoneLeft? || i.Enough? ==> State() == old(State())
    {
      ok := !i.NoneLeft?;
      if i.Single? {
        nExtra, nCombined, nRxOnly, nTxOnly, nXdp := 0, 1, 0, 0, 0;
      } else if i.Recounted? {
        nExtra, nCombined, nRxOnly, nTxOnly, nXdp := i.ch.extra, i.ch.combined, i.ch.rxOnly, i.ch.txOnly, i.ch.xdp;
      }
    }

    /** The retry loop, given what the environment does in each pass: return code, number of
        passes, VIs, channel counts and limit are as said; `Again` means that the given passes
        did not end it. */
    method NetAlloc(passes: seq<Pass>) returns (rc: Rc, used: nat, granted: nat)
      requires cfg.txPerChannel > 0
      modifies this
      ensures Outcome(rc, used, granted, State(), maxVis) == Allocate(cfg, old(State()), old(maxVis), 0, passes)
    {
      granted, used, rc := 0, 0, Again;
      ghost var all := Allocate(cfg, State(), maxVis, 0, passes);
      assert passes[0..] == passes;
      while rc.Again? && used < |passes|
        invariant used <= |passes|
        invariant if rc.Again? then
                    var rest := Allocate(cfg, State(), maxVis, granted, passes[used..]);
                    all == rest.(used := used + rest.used)
                  else all == Outcome(rc, used, granted, State(), maxVis)
        decreases |passes| - used
      {
        assert passes[used..][0] == passes[used] && passes[used..][1..] == passes[used + 1..];
        rc, granted := OnePass(passes[used], granted);
        used := used + 1;
      }
    }

    /** One pass, when `had` VIs have been granted before. */
    method OnePass(p: Pass, had: nat) returns (rc: Rc, granted: nat)
      requires cfg.txPerChannel > 0
      modifies this
      ensures var now := Probed(old(State()), p.interrupts);
              var got := if p.reply.rc.Ok? then p.reply.vis else 0;
              if !SetUp(p) || had > 0 then
                && rc == (if SetUp(p) then Ok else Error) && granted == had && State() == now && maxVis == old(maxVis)
              else if !p.freed || p.reply.rc.Error? then
                rc == Error && granted == 0 && State() == now && maxVis == old(maxVis)
              else if p.reply.rc.Again? || Short(cfg, now, p.reply) then
                rc == Again && State() == Adjusted(cfg, now, got) && maxVis == granted == got
              else rc == Ok && granted == got && State() == now && maxVis == old(maxVis)
      ensures p.interrupts.NoneLeft? || !p.channels ==> rc == Error
    {
      hide Adjusted, Demand, Cost;
      granted := had;
      var up := ProbeInterrupts(p.interrupts);
      if !up || !p.channels { return Error, granted; }
      rc := Ok;
      if granted == 0 {
        if !p.freed { return Error, granted; }
        rc, granted := AllocVis(p.reply);
        if rc.Again? {
          AdjustChannels(granted);
          maxVis := granted;
        }
      }
    }
  }
}
