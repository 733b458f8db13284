// Programmed-I/O buffers of EF10 (ef10.c): each TX channel gets a slice of a small
// number of buffers, written through a write-combining mapping of extra VIs.

module PioBuffers {
  import opened Arithmetic

  /** Offset of the buffer inside a VI's register page. */
  const PIOBUF_OFFSET := 4096

  const MAX_PIOBUFS := 16

  /** Slice size, buffer size, bytes per VI, host page size. */
  datatype Config = Config(slice: nat, buffer: nat, stride: nat, page: nat)

  /** What the hardware and the kernel guarantee: the buffer fits behind its offset in the
      VI, and a page is 4K and divides the VI, or is a whole number of VIs. */
  predicate Legal(cfg: Config) {
    && cfg.slice > 0 && cfg.buffer > 0 && cfg.page > 0
    && PIOBUF_OFFSET + cfg.buffer <= cfg.stride
    && ((cfg.page == PIOBUF_OFFSET && cfg.stride % cfg.page == 0) || cfg.page % cfg.stride == 0)
  }

  function Align(x: nat, y: nat): nat
    requires y > 0
  {
    RoundUp(x, y) * y
  }

  // ---- Arithmetic ----

  lemma RoundUpCovers(x: nat, y: nat)
    requires y > 0
    ensures Align(x, y) >= x && Align(x, y) < x + y
  {
    DivParts(x + y - 1, y);
  }

  lemma AlignedStays(q: nat, y: nat)
    requires y > 0
    ensures Align(q * y, y) == q * y
  {
    DivUnique(q * y + y - 1, y, q, y - 1);
  }

  /** Scaling both sides leaves the quotient and scales the remainder. */
  lemma ScaledDivision(j: nat, d: nat, s: nat)
    requires d > 0 && s > 0
    ensures d * s > 0 && (j * s) / (d * s) == j / d && (j * s) % (d * s) == (j % d) * s
  {
    var q, r := j / d, j % d;
    DivParts(j, d);
    Associative(q, d, s);
    assert j * s == q * (d * s) + r * s by { assert (q * d + r) * s == q * d * s + r * s; }
    Monotone(r + 1, d, s);
    assert d * s > 0 by { Monotone(1, d, s); }
    DivUnique(j * s, d * s, q, r * s);
  }

  // ---- Slices ----

  /** The slice of the channel that is `j` places before the last. */
  function Index(cfg: Config, j: nat): nat
    requires cfg.buffer > 0
  {
    j * cfg.slice / cfg.buffer
  }

  function Offset(cfg: Config, j: nat): nat
    requires cfg.buffer > 0
  {
    j * cfg.slice % cfg.buffer
  }

  /** The slice lies inside one buffer. */
  predicate Fits(cfg: Config, j: nat)
    requires cfg.buffer > 0
  {
    Offset(cfg, j) + cfg.slice <= cfg.buffer
  }

  lemma ExactSlices(cfg: Config, j: nat)
    requires cfg.slice > 0 && cfg.buffer > 0 && cfg.buffer % cfg.slice == 0
    ensures var d := cfg.buffer / cfg.slice;
            d > 0 && Index(cfg, j) == j / d && Offset(cfg, j) == (j % d) * cfg.slice && Fits(cfg, j)
  {
    var d := cfg.buffer / cfg.slice;
    DivParts(cfg.buffer, cfg.slice);
    assert d * cfg.slice == cfg.buffer;
    assert d > 0;
    ScaledDivision(j, d, cfg.slice);
    Monotone(j % d + 1, d, cfg.slice);
    Monotone(j % d, d, cfg.slice);
  }

  lemma FirstBuffer(cfg: Config, j: nat)
    requires cfg.slice > 0 && cfg.buffer > 0
    ensures (j < cfg.buffer / cfg.slice) ==> Index(cfg, j) == 0 && Fits(cfg, j)
    ensures j == cfg.buffer / cfg.slice && cfg.buffer % cfg.slice != 0 ==> !Fits(cfg, j)
  {
    var k := cfg.buffer / cfg.slice;
    DivParts(cfg.buffer, cfg.slice);
    Monotone(j + 1, k, cfg.slice);
    Monotone(j, k, cfg.slice);
    if j <= k && j * cfg.slice < cfg.buffer { DivUnique(j * cfg.slice, cfg.buffer, 0, j * cfg.slice); }
  }

  /** Every channel's slice lies inside one buffer exactly when the slice size divides the
      buffer size, or one buffer is enough for all channels. */
  lemma SlicesFitIff(cfg: Config, channels: nat)
    requires cfg.slice > 0 && cfg.buffer > 0
    ensures (forall j | 0 <= j < channels :: Fits(cfg, j)) <==>
            cfg.buffer % cfg.slice == 0 || channels <= cfg.buffer / cfg.slice
  {
    hide Fits;
    var k := cfg.buffer / cfg.slice;
    if cfg.buffer % cfg.slice == 0 {
      forall j: nat | j < channels ensures Fits(cfg, j) { ExactSlices(cfg, j); }
    } else if channels <= k {
      forall j: nat | j < channels ensures Fits(cfg, j) { FirstBuffer(cfg, j); }
    } else {
      FirstBuffer(cfg, k);
    }
  }

  /** Different channels never share a byte. */
  lemma SlicesDisjoint(cfg: Config, i: nat, j: nat)
    requires cfg.slice > 0 && cfg.buffer > 0 && i < j
    ensures Index(cfg, i) < Index(cfg, j)
            || (Index(cfg, i) == Index(cfg, j) && Offset(cfg, i) + cfg.slice <= Offset(cfg, j))
  {
    DivParts(i * cfg.slice, cfg.buffer);
    DivParts(j * cfg.slice, cfg.buffer);
    Monotone(i + 1, j, cfg.slice);
    Monotone(i, j, cfg.slice);
    Monotone(Index(cfg, j) + 1, Index(cfg, i), cfg.buffer);
    Monotone(Index(cfg, j), Index(cfg, i), cfg.buffer);
  }

  function BuffersNeeded(cfg: Config, channels: nat): nat
    requires 0 < cfg.slice <= cfg.buffer
  {
    Positive(cfg.buffer, cfg.slice);
    RoundUp(channels, cfg.buffer / cfg.slice)
  }

  lemma Positive(x: nat, y: nat)
    requires 0 < y <= x
    ensures x / y > 0
  {
    DivParts(x, y);
  }

  /** Enough buffers are asked for, and never more than there can be. */
  lemma BuffersSuffice(cfg: Config, channels: nat, j: nat)
    requires 0 < cfg.slice <= cfg.buffer && cfg.buffer % cfg.slice == 0 && j < channels
    ensures Index(cfg, j) < BuffersNeeded(cfg, channels)
    ensures cfg.buffer / cfg.slice * MAX_PIOBUFS >= channels ==> BuffersNeeded(cfg, channels) <= MAX_PIOBUFS
  {
    var d := cfg.buffer / cfg.slice;
    ExactSlices(cfg, j);
    RoundUpCovers(channels, d);
    DivParts(j, d);
    var n := RoundUp(channels, d);
    Monotone(n, j / d, d);
    if d * MAX_PIOBUFS >= channels {
      assert d * MAX_PIOBUFS == MAX_PIOBUFS * d;
      Monotone(MAX_PIOBUFS + 1, n, d);
      Monotone(MAX_PIOBUFS, n, d);
    }
  }

  // ---- Mappings ----

  /** Size of the uncached mapping, first VI beyond the complete ones in it, and size of
      the write-combining mapping that follows it. */
  datatype Maps = Maps(uc: nat, vi: nat, wc: int)

  function Times(a: nat, b: nat): nat { a * b }

  function Mappings(cfg: Config, channelVis: nat, buffers: nat): Maps
    requires cfg.stride > 0 && cfg.page > 0 && channelVis > 0
  {
    var uc := Align(Times(channelVis - 1, cfg.stride) + PIOBUF_OFFSET, cfg.page);
    var vi := uc / cfg.stride;
    Maps(uc, vi, Align(Times(vi + buffers, cfg.stride), cfg.page) - uc)
  }

  /** Where a slice is written, as an offset into the write-combining mapping. */
  function Address(cfg: Config, m: Maps, index: nat, offset: nat): int {
    m.vi * cfg.stride + PIOBUF_OFFSET - m.uc + index * cfg.stride + offset
  }

  /** The VI that the PIO writes start in does not begin after its buffer's offset. */
  lemma StartIsMapped(cfg: Config, channelVis: nat, buffers: nat)
    requires Legal(cfg) && channelVis > 0
    ensures var m := Mappings(cfg, channelVis, buffers); m.vi * cfg.stride <= m.uc <= m.vi * cfg.stride + PIOBUF_OFFSET
  {
    var m := Mappings(cfg, channelVis, buffers);
    var v := channelVis - 1;
    DivParts(m.uc, cfg.stride);
    if cfg.page % cfg.stride == 0 {
      var k := cfg.page / cfg.stride;
      DivParts(cfg.page, cfg.stride);
      var r := RoundUp(v * cfg.stride + PIOBUF_OFFSET, cfg.page);
      assert m.uc == r * (k * cfg.stride);
      Associative(r, k, cfg.stride);
      DivUnique(m.uc, cfg.stride, r * k, 0);
    } else {
      var k := cfg.stride / cfg.page;
      DivParts(cfg.stride, cfg.page);
      Associative(v, k, cfg.page);
      assert v * cfg.stride == (v * k) * cfg.page;
      Monotone(v * k, v * k, cfg.page);
      AlignedStays(v * k + 1, cfg.page);
      assert m.uc == v * cfg.stride + PIOBUF_OFFSET;
      DivUnique(m.uc, cfg.stride, v, PIOBUF_OFFSET);
    }
  }

  /** Every slice is written inside the mapping. */
  lemma SliceIsMapped(cfg: Config, channelVis: nat, channels: nat, j: nat)
    requires Legal(cfg) && channelVis > 0 && cfg.slice <= cfg.buffer && cfg.buffer % cfg.slice == 0 && j < channels
    ensures var m := Mappings(cfg, channelVis, BuffersNeeded(cfg, channels));
            0 <= Address(cfg, m, Index(cfg, j), Offset(cfg, j))
            && Address(cfg, m, Index(cfg, j), Offset(cfg, j)) + cfg.slice <= m.wc
  {
    var n := BuffersNeeded(cfg, channels);
    var m := Mappings(cfg, channelVis, n);
    StartIsMapped(cfg, channelVis, n);
    BuffersSuffice(cfg, channels, j);
    ExactSlices(cfg, j);
    RoundUpCovers((m.vi + n) * cfg.stride, cfg.page);
    hide Fits, Index, Offset, BuffersNeeded, Align, RoundUp;
    var i := Index(cfg, j);
    InsideVis(cfg, m.vi, i, n);
    assert Fits(cfg, j) ==> Offset(cfg, j) + cfg.slice <= cfg.buffer by { FitsMeans(cfg, j); }
  }

  lemma FitsMeans(cfg: Config, j: nat)
    requires cfg.buffer > 0
    ensures Fits(cfg, j) ==> Offset(cfg, j) + cfg.slice <= cfg.buffer
  {}

  lemma InsideVis(cfg: Config, vi: nat, i: nat, n: nat)
    requires i < n
    ensures vi * cfg.stride + i * cfg.stride + cfg.stride <= (vi + n) * cfg.stride && i * cfg.stride >= 0
  {
    Monotone(vi + i + 1, vi + n, cfg.stride);
    assert (vi + i) * cfg.stride == vi * cfg.stride + i * cfg.stride;
    Monotone(vi + i, vi + n, cfg.stride);
  }

  /** The uncached mapping is the least number of pages that holds the VIs before the last and
      4K of the last; the VIs of the PIO writes begin with the one it ends in, or behind it; and
      the other mapping goes on to the end of the page that the last of them ends in. */
  lemma MappingsInBytes(cfg: Config, channelVis: nat, buffers: nat)
    requires cfg.stride > 0 && cfg.page > 0 && channelVis > 0
    ensures var m, need := Mappings(cfg, channelVis, buffers), (channelVis - 1) * cfg.stride + 4096;
            && m.uc % cfg.page == 0 && need <= m.uc < need + cfg.page
            && m.vi * cfg.stride <= m.uc < m.vi * cfg.stride + cfg.stride
            && (m.uc + m.wc) % cfg.page == 0
            && (m.vi + buffers) * cfg.stride <= m.uc + m.wc < (m.vi + buffers) * cfg.stride + cfg.page
  {
    var m := Mappings(cfg, channelVis, buffers);
    RoundUpCovers((channelVis - 1) * cfg.stride + 4096, cfg.page);
    RoundUpCovers((m.vi + buffers) * cfg.stride, cfg.page);
    DivParts(m.uc, cfg.stride);
    DivUnique(m.uc, cfg.page, RoundUp((channelVis - 1) * cfg.stride + 4096, cfg.page), 0);
    DivUnique(m.uc + m.wc, cfg.page, RoundUp((m.vi + buffers) * cfg.stride, cfg.page), 0);
  }

  /** So many buffers hold a slice for each channel, and no fewer. */
  lemma FewestBuffers(cfg: Config, channels: nat, k: nat)
    requires 0 < cfg.slice <= cfg.buffer
    ensures k * (cfg.buffer / cfg.slice) >= channels <==> k >= BuffersNeeded(cfg, channels)
  {
    Positive(cfg.buffer, cfg.slice);
    var d, n := cfg.buffer / cfg.slice, BuffersNeeded(cfg, channels);
    RoundUpCovers(channels, d);
    Monotone(n, k, d);
    Monotone(k + 1, n, d);
    assert (k + 1) * d == k * d + d;
  }

  // ---- Queue numbers ----

  /** The TX channels, the queues each has, and the number of the first TX channel among all
      channels. */
  datatype TxQueues = TxQueues(channels: nat, perChannel: nat, first: nat)

  function Total(tx: TxQueues): nat { Times(tx.channels, tx.perChannel) }

  /** The VI of queue `j` of TX channel `t`: with an even number of queues a channel, the odd
      channels have theirs swapped in pairs. */
  function Number(tx: TxQueues, t: nat, j: nat): nat
    requires j < tx.perChannel
  {
    Times(t, tx.perChannel) + Swapped(tx, t, j)
  }

  function Swapped(tx: TxQueues, t: nat, j: nat): (r: nat)
    requires j < tx.perChannel
    ensures r < tx.perChannel
  {
    if tx.perChannel % 2 == 0 && (tx.first + t) % 2 == 1 then if j % 2 == 0 then j + 1 else j - 1 else j
  }

  lemma EvenTimes(t: nat, q: nat)
    requires q % 2 == 0
    ensures Times(t, q) % 2 == 0
  {
    var h := q / 2;
    Associative(t, h, 2);
    DivUnique(Times(t, q), 2, t * h, 0);
  }

  /** The code flips the lowest bit of the number itself. */
  lemma SwapIsXor(tx: TxQueues, t: nat, j: nat)
    requires j < tx.perChannel && tx.perChannel % 2 == 0
    ensures var x := Times(t, tx.perChannel) + j;
            Number(tx, t, j) == if (tx.first + t) % 2 == 0 then x else if x % 2 == 0 then x + 1 else x - 1
  {
    EvenTimes(t, tx.perChannel);
    EvenPlus(Times(t, tx.perChannel), j);
    hide Times;
  }

  lemma EvenPlus(a: nat, j: nat)
    requires a % 2 == 0
    ensures (a + j) % 2 == j % 2
  {
    DivParts(a, 2);
    DivParts(j, 2);
    DivUnique(a + j, 2, a / 2 + j / 2, j % 2);
  }

  lemma SwapTwice(tx: TxQueues, t: nat, j: nat)
    requires j < tx.perChannel
    ensures Swapped(tx, t, Swapped(tx, t, j)) == j
  {}

  function Channel(tx: TxQueues, vi: nat): nat
    requires tx.perChannel > 0
  {
    vi / tx.perChannel
  }

  /** A number tells its channel. */
  lemma ChannelOf(tx: TxQueues, t: nat, j: nat)
    requires j < tx.perChannel
    ensures Channel(tx, Number(tx, t, j)) == t
    ensures t < tx.channels ==> Number(tx, t, j) < Total(tx)
  {
    hide Swapped;
    DivUnique(Number(tx, t, j), tx.perChannel, t, Swapped(tx, t, j));
    Monotone(t + 1, tx.channels, tx.perChannel);
  }

  /** No two queues share a VI. */
  lemma NumbersDiffer(tx: TxQueues, t: nat, j: nat, u: nat, k: nat)
    requires j < tx.perChannel && k < tx.perChannel && Number(tx, t, j) == Number(tx, u, k)
    ensures t == u && j == k
  {
    ChannelOf(tx, t, j);
    ChannelOf(tx, u, k);
    SwapTwice(tx, t, j);
    SwapTwice(tx, u, k);
  }

  /** Every VI below the total is some queue's. */
  lemma NumbersCover(tx: TxQueues, v: nat) returns (t: nat, j: nat)
    requires v < Total(tx)
    ensures t == Channel(tx, v) < tx.channels && j < tx.perChannel && Number(tx, t, j) == v
  {
    ZeroTimes(tx.channels, tx.perChannel);
    t := Channel(tx, v);
    DivParts(v, tx.perChannel);
    Monotone(tx.channels, t, tx.perChannel);
    j := Swapped(tx, t, v % tx.perChannel);
    SwapTwice(tx, t, v % tx.perChannel);
  }

  // ---- The queue that shares the first VI of the PIO writes ----

  /** Some queue has the VI that buffer 0 is written through, and another buffer is meant for
      it: the driver stops with a BUG. */
  ghost predicate BugFires(cfg: Config, tx: TxQueues, vi: nat)
    requires cfg.buffer > 0
  {
    exists t: nat, j: nat | t < tx.channels && j < tx.perChannel ::
      Number(tx, t, j) == vi && Index(cfg, tx.channels - 1 - t) != 0
  }

  lemma BugFiresIff(cfg: Config, tx: TxQueues, vi: nat)
    requires cfg.buffer > 0
    ensures BugFires(cfg, tx, vi) <==>
            vi < Total(tx) && Channel(tx, vi) < tx.channels
            && Index(cfg, tx.channels - 1 - Channel(tx, vi)) != 0
  {
    hide Index, Number;
    if BugFires(cfg, tx, vi) {
      var t: nat, j: nat :| t < tx.channels && j < tx.perChannel
        && Number(tx, t, j) == vi && Index(cfg, tx.channels - 1 - t) != 0;
      ChannelOf(tx, t, j);
    } else if vi < Total(tx) {
      var t, j := NumbersCover(tx, vi);
    }
  }

  lemma ZeroTimes(a: nat, b: nat)
    ensures a == 0 || b == 0 ==> Times(a, b) == 0
  {}

  lemma DivAtLeast(x: nat, y: nat, q: nat)
    requires y > 0 && q * y <= x
    ensures x / y >= q
  {
    DivParts(x, y);
    Monotone(x / y + 1, q, y);
  }

  /** The PIO writes start in the last VI of the channels, or behind them all. */
  lemma StartIsLast(cfg: Config, channelVis: nat, buffers: nat)
    requires Legal(cfg) && channelVis > 0
    ensures Mappings(cfg, channelVis, buffers).vi >= channelVis - 1
  {
    var x := Times(channelVis - 1, cfg.stride) + PIOBUF_OFFSET;
    RoundUpCovers(x, cfg.page);
    hide Align;
    DivAtLeast(Align(x, cfg.page), cfg.stride, channelVis - 1);
  }

  /** With a VI for each TX queue the bug never fires, and only the last queue can share its
      VI with the PIO writes. */
  lemma EnoughVisNeverBug(cfg: Config, tx: TxQueues, channelVis: nat, buffers: nat)
    requires Legal(cfg) && channelVis > 0 && Total(tx) <= channelVis
    ensures var vi := Mappings(cfg, channelVis, buffers).vi;
            !BugFires(cfg, tx, vi) && Total(tx) <= vi + 1
  {
    var vi := Mappings(cfg, channelVis, buffers).vi;
    StartIsLast(cfg, channelVis, buffers);
    BugFiresIff(cfg, tx, vi);
    hide Mappings, BugFires;
    if vi < Total(tx) {
      var t, j := NumbersCover(tx, vi);
      assert vi + 1 == Total(tx);
      LastChannel(tx, vi);
      FirstPlace(cfg);
    }
  }

  lemma LastChannel(tx: TxQueues, vi: nat)
    requires vi + 1 == Total(tx)
    ensures tx.channels > 0 && tx.perChannel > 0 && Channel(tx, vi) == tx.channels - 1
  {
    ZeroTimes(tx.channels, tx.perChannel);
    Monotone(tx.channels - 1, tx.channels, tx.perChannel);
    DivUnique(vi, tx.perChannel, tx.channels - 1, tx.perChannel - 1);
  }

  lemma FirstPlace(cfg: Config)
    requires cfg.buffer > 0
    ensures Index(cfg, 0) == 0
  {}

  // ---- Linking ----

  /** What a TX queue keeps: its buffer, the offset in it, and where the CPU writes. */
  datatype Link = Link(buffer: nat, offset: nat, address: int)

  function LinkOf(cfg: Config, m: Maps, channels: nat, c: nat): Link
    requires cfg.buffer > 0 && c < channels
  {
    var j := channels - c - 1;
    Link(Index(cfg, j), Offset(cfg, j), Address(cfg, m, Index(cfg, j), Offset(cfg, j)))
  }

  /** Channel by channel from the last one down, the slices follow each other in the buffers; and
      a queue writes to its slice behind the first 4K of its buffer's VI, where the mapping
      shows it. */
  lemma LinkInBytes(cfg: Config, m: Maps, channels: nat, c: nat)
    requires cfg.buffer > 0 && c < channels
    ensures var l := LinkOf(cfg, m, channels, c);
            && l.buffer * cfg.buffer + l.offset == (channels - 1 - c) * cfg.slice && l.offset < cfg.buffer
            && m.uc + l.address == (m.vi + l.buffer) * cfg.stride + 4096 + l.offset
  {
    var l := LinkOf(cfg, m, channels, c);
    DivParts((channels - 1 - c) * cfg.slice, cfg.buffer);
    assert (m.vi + l.buffer) * cfg.stride == m.vi * cfg.stride + l.buffer * cfg.stride;
  }

  /** The VI through which the CPU writes at an address of the mapping. */
  function WrittenVi(cfg: Config, m: Maps, address: int): int
    requires cfg.stride > 0
  {
    (m.uc + address) / cfg.stride
  }

  /** A link that stays inside its buffer, the buffers there are, and the mapping, and whose
      address lies in the VI of its buffer. */
  predicate LinkGood(cfg: Config, m: Maps, buffers: nat, l: Link)
    requires cfg.stride > 0
  {
    && l.buffer < buffers && l.offset + cfg.slice <= cfg.buffer
    && 0 <= l.address && l.address + cfg.slice <= m.wc
    && WrittenVi(cfg, m, l.address) == m.vi + l.buffer
    && WrittenVi(cfg, m, l.address + cfg.slice - 1) == m.vi + l.buffer
  }

  predicate LinksDisjoint(cfg: Config, a: Link, b: Link) {
    a.buffer == b.buffer ==> a.offset + cfg.slice <= b.offset || b.offset + cfg.slice <= a.offset
  }

  lemma AddressInVi(cfg: Config, m: Maps, index: nat, at: nat)
    requires Legal(cfg) && at < cfg.buffer
    ensures WrittenVi(cfg, m, Address(cfg, m, index, at)) == m.vi + index
  {
    assert (m.vi + index) * cfg.stride == m.vi * cfg.stride + index * cfg.stride;
    DivUnique(m.uc + Address(cfg, m, index, at), cfg.stride, m.vi + index, PIOBUF_OFFSET + at);
  }

  lemma AddressMoves(cfg: Config, m: Maps, index: nat, offset: nat, d: nat)
    ensures Address(cfg, m, index, offset + d) == Address(cfg, m, index, offset) + d
  {}

  lemma LinksAreGood(cfg: Config, channelVis: nat, channels: nat, c: nat, e: nat)
    requires Legal(cfg) && channelVis > 0 && cfg.slice <= cfg.buffer && cfg.buffer % cfg.slice == 0
    requires c < channels && e < channels
    ensures var m := Mappings(cfg, channelVis, BuffersNeeded(cfg, channels));
            && LinkGood(cfg, m, BuffersNeeded(cfg, channels), LinkOf(cfg, m, channels, c))
            && (c != e ==> LinksDisjoint(cfg, LinkOf(cfg, m, channels, c), LinkOf(cfg, m, channels, e)))
  {
    hide Index, Offset, Address, Mappings, BuffersNeeded, Fits, WrittenVi;
    var m := Mappings(cfg, channelVis, BuffersNeeded(cfg, channels));
    var j, k := channels - c - 1, channels - e - 1;
    BuffersSuffice(cfg, channels, j);
    ExactSlices(cfg, j);
    FitsMeans(cfg, j);
    SliceIsMapped(cfg, channelVis, channels, j);
    AddressInVi(cfg, m, Index(cfg, j), Offset(cfg, j));
    AddressInVi(cfg, m, Index(cfg, j), Offset(cfg, j) + (cfg.slice - 1));
    AddressMoves(cfg, m, Index(cfg, j), Offset(cfg, j), cfg.slice - 1);
    if j < k { SlicesDisjoint(cfg, j, k); } else if k < j { SlicesDisjoint(cfg, k, j); }
  }

  /** What the firmware answers when asked to link a VI to a buffer. */
  datatype Answer = Done | Refused | NetDown

  function AnswerFor(answers: map<nat, Answer>, vi: nat): Answer {
    if vi in answers then answers[vi] else Done
  }

  /** Queues up to, not including, queue `j` of channel `t`. */
  predicate Earlier(u: nat, k: nat, t: nat, j: nat) { u < t || (u == t && k < j) }

  /** What is linked when the loop has come to queue `j` of channel `t`: `vis` are the
      firmware's links, `links` the queues'. */
  ghost predicate Linking(cfg: Config, m: Maps, tx: TxQueues, buffers: nat, answers: map<nat, Answer>,
                          vis: map<nat, nat>, links: map<nat, Link>, t: nat, j: nat)
    requires cfg.buffer > 0
  {
    && LinksTell(cfg, m, tx, buffers, vis, links)
    && (forall u: nat, k: nat | u < tx.channels && k < tx.perChannel ::
          Number(tx, u, k) in links <==>
          Earlier(u, k, t, j) && (Number(tx, u, k) == m.vi || AnswerFor(answers, Number(tx, u, k)) == Done))
    && (forall v | m.vi <= v < m.vi + buffers && v !in links :: v in vis && vis[v] == v - m.vi)
    && (forall v | v in vis :: v in links || m.vi <= v < m.vi + buffers)
  }

  /** Every queue's link is its channel's, and the firmware has linked its VI to the same
      buffer; but the queue that shares the first VI of the PIO writes relies on the link of
      that VI, which there is only if there are buffers. */
  ghost predicate LinksTell(cfg: Config, m: Maps, tx: TxQueues, buffers: nat, vis: map<nat, nat>, links: map<nat, Link>)
    requires cfg.buffer > 0
  {
    forall x | x in links ::
      && tx.perChannel > 0 && Channel(tx, x) < tx.channels
      && links[x] == LinkOf(cfg, m, tx.channels, Channel(tx, x))
      && (x in vis <==> x != m.vi || buffers > 0) && (x in vis ==> vis[x] == links[x].buffer)
  }

  /** The state once every VI of the PIO writes is linked and no queue is. */
  lemma LinkingStarts(cfg: Config, m: Maps, tx: TxQueues, buffers: nat, answers: map<nat, Answer>, vis: map<nat, nat>)
    requires cfg.buffer > 0 && forall v :: v in vis <==> m.vi <= v < m.vi + buffers
    requires forall v | v in vis :: vis[v] == v - m.vi
    ensures Linking(cfg, m, tx, buffers, answers, vis, map[], 0, 0)
  {}

  lemma NextChannel(cfg: Config, m: Maps, tx: TxQueues, buffers: nat, answers: map<nat, Answer>,
                    vis: map<nat, nat>, links: map<nat, Link>, t: nat)
    requires cfg.buffer > 0 && Linking(cfg, m, tx, buffers, answers, vis, links, t, tx.perChannel)
    ensures Linking(cfg, m, tx, buffers, answers, vis, links, t + 1, 0)
  {
    hide LinksTell, AnswerFor, Number;
  }

  /** One more queue: linked, with the firmware's link for its VI, or turned down. */
  lemma LinkingOneMore(cfg: Config, m: Maps, tx: TxQueues, buffers: nat, answers: map<nat, Answer>,
                       vis: map<nat, nat>, links: map<nat, Link>, t: nat, j: nat)
    requires cfg.buffer > 0 && Linking(cfg, m, tx, buffers, answers, vis, links, t, j)
    requires t < tx.channels && j < tx.perChannel
    requires Number(tx, t, j) == m.vi ==> LinkOf(cfg, m, tx.channels, t).buffer == 0
    ensures var q, l := Number(tx, t, j), LinkOf(cfg, m, tx.channels, t);
            && q !in links
            && if q == m.vi then Linking(cfg, m, tx, buffers, answers, vis, links[q := l], t, j + 1)
               else if AnswerFor(answers, q) == Done then
                 Linking(cfg, m, tx, buffers, answers, vis[q := l.buffer], links[q := l], t, j + 1)
               else Linking(cfg, m, tx, buffers, answers, vis, links, t, j + 1)
  {
    var q, l := Number(tx, t, j), LinkOf(cfg, m, tx.channels, t);
    ChannelOf(tx, t, j);
    hide Number, AnswerFor, LinkOf, Channel;
    forall u: nat, k: nat | u < tx.channels && k < tx.perChannel
      ensures Number(tx, u, k) == q <==> u == t && k == j {
      if Number(tx, u, k) == q { NumbersDiffer(tx, t, j, u, k); }
    }
  }

  lemma BelowTotal(tx: TxQueues, x: nat)
    requires tx.perChannel > 0 && Channel(tx, x) < tx.channels
    ensures x < Total(tx)
  {
    Monotone(Channel(tx, x) + 1, tx.channels, tx.perChannel);
    DivParts(x, tx.perChannel);
  }

  lemma LastQueueHasFirstBuffer(cfg: Config, tx: TxQueues, vi: nat, x: nat)
    requires cfg.buffer > 0 && tx.perChannel > 0 && Channel(tx, x) < tx.channels
    requires vi <= x && Total(tx) <= vi + 1
    ensures x == vi && Index(cfg, tx.channels - 1 - Channel(tx, x)) == 0
  {
    BelowTotal(tx, x);
    LastChannel(tx, x);
    FirstPlace(cfg);
  }

  /** Queue `v` is linked. */
  predicate Answered(m: Maps, answers: map<nat, Answer>, v: nat) { v == m.vi || AnswerFor(answers, v) == Done }

  /** No queue takes this VI of the PIO writes away from its buffer. */
  predicate Undisturbed(cfg: Config, m: Maps, tx: TxQueues, answers: map<nat, Answer>, v: nat)
    requires cfg.buffer > 0
  {
    v >= m.vi && v < Total(tx) && tx.perChannel > 0 && Channel(tx, v) < tx.channels && Answered(m, answers, v) ==>
      Index(cfg, tx.channels - 1 - Channel(tx, v)) == v - m.vi
  }

  /** With a VI for each TX queue none does. */
  lemma NoneDisturbed(cfg: Config, m: Maps, tx: TxQueues, answers: map<nat, Answer>, v: nat)
    requires cfg.buffer > 0 && Total(tx) <= m.vi + 1
    ensures Undisturbed(cfg, m, tx, answers, v)
  {
    hide Index, Total;
    if v >= m.vi && tx.perChannel > 0 && Channel(tx, v) < tx.channels { LastQueueHasFirstBuffer(cfg, tx, m.vi, v); }
  }

  lemma LinkedIff(cfg: Config, m: Maps, tx: TxQueues, buffers: nat, answers: map<nat, Answer>,
                  vis: map<nat, nat>, links: map<nat, Link>, v: nat)
    requires cfg.buffer > 0 && Linking(cfg, m, tx, buffers, answers, vis, links, tx.channels, 0)
    ensures v in links <==> v < Total(tx) && Answered(m, answers, v)
    ensures v in links ==> tx.perChannel > 0 && Channel(tx, v) < tx.channels
  {
    hide Number, LinkOf, Total, Channel;
    if v in links { BelowTotal(tx, v); }
    if v < Total(tx) {
      var t, j := NumbersCover(tx, v);
      assert Number(tx, t, j) in links <==> Answered(m, answers, Number(tx, t, j));
    }
  }

  /** A VI of the PIO writes is linked to its own buffer in the end exactly if no queue takes
      it away. */
  lemma ViKeepsBufferIff(cfg: Config, m: Maps, tx: TxQueues, buffers: nat, answers: map<nat, Answer>,
                         vis: map<nat, nat>, links: map<nat, Link>, v: nat)
    requires cfg.buffer > 0 && Linking(cfg, m, tx, buffers, answers, vis, links, tx.channels, 0)
    requires m.vi <= v < m.vi + buffers
    ensures v in vis && (vis[v] == v - m.vi <==> Undisturbed(cfg, m, tx, answers, v))
  {
    LinkedIff(cfg, m, tx, buffers, answers, vis, links, v);
    hide Number, Total, Answered, Index;
  }

  /** All of them keep their buffers exactly if every linked queue whose number is among theirs
      belongs to the buffer of that VI. */
  lemma SharedViKeepsBuffer(cfg: Config, m: Maps, tx: TxQueues, buffers: nat, answers: map<nat, Answer>,
                            vis: map<nat, nat>, links: map<nat, Link>)
    requires cfg.buffer > 0 && Linking(cfg, m, tx, buffers, answers, vis, links, tx.channels, 0)
    ensures (forall v | m.vi <= v < m.vi + buffers :: v in vis && vis[v] == v - m.vi) <==>
            (forall v | m.vi <= v < m.vi + buffers :: Undisturbed(cfg, m, tx, answers, v))
  {
    forall v | m.vi <= v < m.vi + buffers
      ensures v in vis && (vis[v] == v - m.vi <==> Undisturbed(cfg, m, tx, answers, v)) {
      ViKeepsBufferIff(cfg, m, tx, buffers, answers, vis, links, v);
    }
    hide Linking, Undisturbed;
  }

  /** The buffers that are still there when the links are made: none, if not enough VIs were
      granted to write through all of them. */
  function Kept(m: Maps, wanted: nat, granted: nat): nat { if granted < m.vi + wanted then 0 else wanted }

  /** A queue gets a link with no buffer linked to its VI exactly if the buffers were given
      back and some queue has the first VI of the PIO writes; it is that queue. */
  lemma UnbackedIff(cfg: Config, m: Maps, tx: TxQueues, wanted: nat, granted: nat, answers: map<nat, Answer>,
                    vis: map<nat, nat>, links: map<nat, Link>)
    requires cfg.buffer > 0 && wanted > 0
    requires Linking(cfg, m, tx, Kept(m, wanted, granted), answers, vis, links, tx.channels, 0)
    ensures forall x | x in links :: x !in vis <==> x == m.vi && granted < m.vi + wanted
    ensures (exists x :: x in links && x !in vis) <==> granted < m.vi + wanted && m.vi < Total(tx)
  {
    LinkedIff(cfg, m, tx, Kept(m, wanted, granted), answers, vis, links, m.vi);
    hide Number, LinkOf, Total, Channel;
    assert forall x | x in links :: x !in vis <==> x == m.vi && granted < m.vi + wanted;
    hide Linking;
  }

  // ---- The driver's code ----

  /** The firmware links every VI of the PIO writes. */
  ghost predicate VisLinked(m: Maps, buffers: nat, answers: map<nat, Answer>) {
    forall v: nat | m.vi <= v < m.vi + buffers :: AnswerFor(answers, v) == Done
  }

  /** The VIs that have been linked for the PIO writes, and at a failure unlinked again. */
  method LinkWriteVis(m: Maps, buffers: nat, answers: map<nat, Answer>) returns (rc: Answer, vis: map<nat, nat>)
    ensures rc == Done ==> forall v :: v in vis <==> m.vi <= v < m.vi + buffers
    ensures rc == Done ==> forall v | v in vis :: vis[v] == v - m.vi
    ensures rc == Done <==> VisLinked(m, buffers, answers)
    ensures rc != Done ==> vis == map[]
  {
    vis := map[];
    for index := 0 to buffers
      invariant forall v :: v in vis <==> m.vi <= v < m.vi + index
      invariant forall v | v in vis :: vis[v] == v - m.vi && AnswerFor(answers, v) == Done
    {
      rc := AnswerFor(answers, m.vi + index);
      if rc != Done {
        vis := UnlinkWriteVis(m, index, vis);
        assert vis == map[];
        return;
      }
      vis := vis[m.vi + index := index];
    }
    rc := Done;
  }

  method UnlinkWriteVis(m: Maps, upTo: nat, vis: map<nat, nat>) returns (r: map<nat, nat>)
    ensures forall v :: v in r <==> v in vis && !(m.vi <= v < m.vi + upTo)
    ensures forall v | v in r :: r[v] == vis[v]
  {
    r := vis;
    var index := upTo;
    while index > 0
      invariant 0 <= index <= upTo
      invariant forall v :: v in r <==> v in vis && !(m.vi + index <= v < m.vi + upTo)
      invariant forall v | v in r :: r[v] == vis[v]
    {
      index := index - 1;
      r := r - {m.vi + index};
    }
  }

  /** What linking leaves behind: the firmware's links, and the queues'. */
  datatype Linked = Linked(vis: map<nat, nat>, queues: map<nat, Link>)

  method LinkQueue(cfg: Config, m: Maps, tx: TxQueues, t: nat, j: nat, answers: map<nat, Answer>, was: Linked)
      returns (rc: Answer, index: nat, now: Linked)
    requires Legal(cfg) && t < tx.channels && j < tx.perChannel && !BugFires(cfg, tx, m.vi)
    ensures var q, l := Number(tx, t, j), LinkOf(cfg, m, tx.channels, t);
            && index == l.buffer && rc == (if q == m.vi then Done else AnswerFor(answers, q))
            && (q == m.vi ==> index == 0)
            && now == (if rc != Done then Linked(was.vis, was.queues - {q})
                       else Linked(if q == m.vi then was.vis else was.vis[q := l.buffer], was.queues[q := l]))
  {
    var q := Number(tx, t, j);
    var position := Times(tx.channels - t - 1, cfg.slice);
    index := position / cfg.buffer;
    var offset := position % cfg.buffer;
    assert Link(index, offset, Address(cfg, m, index, offset)) == LinkOf(cfg, m, tx.channels, t);
    now := was;
    if q == m.vi {
      assert index == 0;
      rc := Done;
    } else {
      rc := AnswerFor(answers, q);
      if rc == Done { now := now.(vis := now.vis[q := index]); }
    }
    if rc == Done {
      now := now.(queues := now.queues[q := Link(index, offset, Address(cfg, m, index, offset))]);
    } else {
      now := now.(queues := now.queues - {q});
    }
  }

  /** Asked about this queue's VI, the firmware says that the network is down. */
  predicate FindsDown(m: Maps, answers: map<nat, Answer>, vi: nat) {
    vi != m.vi && AnswerFor(answers, vi) == NetDown
  }

  ghost predicate AnyDown(m: Maps, tx: TxQueues, answers: map<nat, Answer>, channels: nat) {
    exists t: nat, j: nat | t < channels && j < tx.perChannel :: FindsDown(m, answers, Number(tx, t, j))
  }

  lemma AnyDownOneMore(m: Maps, tx: TxQueues, answers: map<nat, Answer>, t: nat)
    ensures AnyDown(m, tx, answers, t + 1) <==>
            AnyDown(m, tx, answers, t) || exists j: nat | j < tx.perChannel :: FindsDown(m, answers, Number(tx, t, j))
    ensures forall u: nat | t <= u && AnyDown(m, tx, answers, t) :: AnyDown(m, tx, answers, u)
    ensures !AnyDown(m, tx, answers, 0)
  {
    hide FindsDown, Number;
    if AnyDown(m, tx, answers, t + 1) {
      var u: nat, k: nat :| u < t + 1 && k < tx.perChannel && FindsDown(m, answers, Number(tx, u, k));
      assert u < t || u == t;
    }
  }

  /** Queue `j` of channel `t` is the first to find the network down. */
  ghost predicate DownAt(m: Maps, tx: TxQueues, answers: map<nat, Answer>, t: nat, j: nat) {
    && t < tx.channels && j < tx.perChannel && FindsDown(m, answers, Number(tx, t, j))
    && forall u: nat, k: nat | u < tx.channels && k < tx.perChannel && Earlier(u, k, t, j) ::
         !FindsDown(m, answers, Number(tx, u, k))
  }

  lemma DownFirst(m: Maps, tx: TxQueues, answers: map<nat, Answer>, t: nat, j: nat)
    requires t < tx.channels && j < tx.perChannel && !AnyDown(m, tx, answers, t)
    requires FindsDown(m, answers, Number(tx, t, j))
    requires forall k: nat | k < j :: !FindsDown(m, answers, Number(tx, t, k))
    ensures DownAt(m, tx, answers, t, j)
  {
    hide FindsDown, Number;
  }

  /** What is left once queue `j` of channel `t` has found the network down: the queues before
      it keep their links, and the firmware those of the VIs, except that the first `down`
      VIs of the PIO writes are unlinked. */
  ghost predicate Abandoned(cfg: Config, m: Maps, tx: TxQueues, buffers: nat, answers: map<nat, Answer>,
                            down: nat, r: Linked, t: nat, j: nat)
    requires cfg.buffer > 0
  {
    && (forall u: nat, k: nat | u < tx.channels && k < tx.perChannel ::
          Number(tx, u, k) in r.queues <==> Earlier(u, k, t, j) && Answered(m, answers, Number(tx, u, k)))
    && (forall x | x in r.queues ::
          tx.perChannel > 0 && Channel(tx, x) < tx.channels
          && r.queues[x] == LinkOf(cfg, m, tx.channels, Channel(tx, x)))
    && (forall v :: v in r.vis <==>
          (m.vi <= v < m.vi + buffers || (v in r.queues && v != m.vi)) && !(m.vi <= v < m.vi + down))
    && forall v | v in r.vis :: r.vis[v] == if v in r.queues then r.queues[v].buffer else v - m.vi
  }

  lemma LinkingAbandoned(cfg: Config, m: Maps, tx: TxQueues, buffers: nat, answers: map<nat, Answer>,
                         was: Linked, down: nat, r: Linked, t: nat, j: nat)
    requires cfg.buffer > 0 && Linking(cfg, m, tx, buffers, answers, was.vis, was.queues, t, j)
    requires r.queues == was.queues && forall v :: v in r.vis <==> v in was.vis && !(m.vi <= v < m.vi + down)
    requires forall v | v in r.vis :: r.vis[v] == was.vis[v]
    ensures Abandoned(cfg, m, tx, buffers, answers, down, r, t, j)
  {
    hide Number, LinkOf, Channel, AnswerFor;
    assert Linking(cfg, m, tx, buffers, answers, was.vis, was.queues, t, j);
  }

  /** So queues are left with links, though the caller gives all buffers back, exactly if one
      before the first that found the network down was not refused; the very first queue of
      all is one if it got an answer. */
  lemma StrandedIff(cfg: Config, m: Maps, tx: TxQueues, buffers: nat, answers: map<nat, Answer>,
                    down: nat, r: Linked, t: nat, j: nat)
    requires cfg.buffer > 0 && DownAt(m, tx, answers, t, j)
    requires Abandoned(cfg, m, tx, buffers, answers, down, r, t, j)
    ensures r.queues != map[] <==>
            exists u: nat, k: nat | u < tx.channels && k < tx.perChannel && Earlier(u, k, t, j) ::
              AnswerFor(answers, Number(tx, u, k)) != Refused || Number(tx, u, k) == m.vi
    ensures t == 0 && j == 0 ==> r.queues == map[]
    ensures (t > 0 || j > 0) && AnswerFor(answers, Number(tx, 0, 0)) != Refused ==> Number(tx, 0, 0) in r.queues
  {
    hide Number, LinkOf, AnswerFor;
    if x :| x in r.queues {
      BelowTotal(tx, x);
      var u, k := NumbersCover(tx, x);
      assert Number(tx, u, k) in r.queues;
    }
    forall u: nat, k: nat | u < tx.channels && k < tx.perChannel && Earlier(u, k, t, j)
      ensures Answered(m, answers, Number(tx, u, k)) <==>
              AnswerFor(answers, Number(tx, u, k)) != Refused || Number(tx, u, k) == m.vi {
      assert !FindsDown(m, answers, Number(tx, u, k));
    }
  }

  /** The queues of one channel, up to queue `at` if it finds the network to be down; `down` is
      then that queue's buffer. */
  method LinkChannel(cfg: Config, m: Maps, tx: TxQueues, buffers: nat, t: nat, answers: map<nat, Answer>, was: Linked)
      returns (rc: Answer, at: nat, down: nat, now: Linked)
    requires Legal(cfg) && t < tx.channels && !BugFires(cfg, tx, m.vi)
    requires Linking(cfg, m, tx, buffers, answers, was.vis, was.queues, t, 0)
    ensures rc != NetDown ==> Linking(cfg, m, tx, buffers, answers, now.vis, now.queues, t + 1, 0)
    ensures rc == NetDown <==> exists j: nat | j < tx.perChannel :: FindsDown(m, answers, Number(tx, t, j))
    ensures rc == NetDown ==>
            && at < tx.perChannel && FindsDown(m, answers, Number(tx, t, at))
            && (forall k: nat | k < at :: !FindsDown(m, answers, Number(tx, t, k)))
            && Linking(cfg, m, tx, buffers, answers, now.vis, now.queues, t, at)
            && down == LinkOf(cfg, m, tx.channels, t).buffer
  {
    hide Number, LinkOf, AnswerFor, Linking, BugFires;
    now, rc, at, down := was, Done, 0, 0;
    for j := 0 to tx.perChannel
      invariant Linking(cfg, m, tx, buffers, answers, now.vis, now.queues, t, j)
      invariant forall k: nat | k < j :: !FindsDown(m, answers, Number(tx, t, k))
    {
      SharedHasFirst(cfg, m, tx, t, j);
      LinkingOneMore(cfg, m, tx, buffers, answers, now.vis, now.queues, t, j);
      ghost var before := now;
      rc, down, now := LinkQueue(cfg, m, tx, t, j, answers, now);
      assert Number(tx, t, j) !in before.queues;
      assert rc != Done ==> before.queues - {Number(tx, t, j)} == before.queues;
      if rc == NetDown {
        at := j;
        return;
      }
    }
    NextChannel(cfg, m, tx, buffers, answers, now.vis, now.queues, t);
    rc := Done;
  }

  lemma SharedHasFirst(cfg: Config, m: Maps, tx: TxQueues, t: nat, j: nat)
    requires cfg.buffer > 0 && t < tx.channels && j < tx.perChannel && !BugFires(cfg, tx, m.vi)
    ensures Number(tx, t, j) == m.vi ==> LinkOf(cfg, m, tx.channels, t).buffer == 0
  {
    hide Number;
  }

  /** Links the VIs of the PIO writes and then every TX queue to its buffer. `answers` is
      what the firmware says for each VI. It succeeds exactly if the VIs of the PIO writes
      can be linked and no queue finds the network down; a queue may be refused. If a VI
      cannot be linked, nothing is; if queue `j` of channel `t` is the first to find the
      network down, `Abandoned` says what is left. */
  method LinkPiobufs(cfg: Config, m: Maps, buffers: nat, tx: TxQueues, answers: map<nat, Answer>)
      returns (rc: Answer, r: Linked, t: nat, j: nat)
    requires Legal(cfg) && !BugFires(cfg, tx, m.vi)
    ensures rc == Done ==> Linking(cfg, m, tx, buffers, answers, r.vis, r.queues, tx.channels, 0)
    ensures rc == Done <==> VisLinked(m, buffers, answers) && !AnyDown(m, tx, answers, tx.channels)
    ensures !VisLinked(m, buffers, answers) ==> r == Linked(map[], map[])
    ensures rc != Done && VisLinked(m, buffers, answers) ==>
            && rc == NetDown && DownAt(m, tx, answers, t, j)
            && Abandoned(cfg, m, tx, buffers, answers, LinkOf(cfg, m, tx.channels, t).buffer, r, t, j)
  {
    hide Linking, AnyDown, BugFires, DownAt, Abandoned;
    var vis: map<nat, nat>;
    t, j := 0, 0;
    rc, vis := LinkWriteVis(m, buffers, answers);
    r := Linked(vis, map[]);
    if rc != Done {
      return;
    }
    LinkingStarts(cfg, m, tx, buffers, answers, vis);
    AnyDownOneMore(m, tx, answers, 0);
    while t < tx.channels
      invariant t <= tx.channels && !AnyDown(m, tx, answers, t)
      invariant Linking(cfg, m, tx, buffers, answers, r.vis, r.queues, t, 0)
    {
      AnyDownOneMore(m, tx, answers, t);
      AnyDownOneMore(m, tx, answers, t + 1);
      var down: nat;
      rc, j, down, r := LinkChannel(cfg, m, tx, buffers, t, answers, r);
      if rc == NetDown {
        DownFirst(m, tx, answers, t, j);
        vis := UnlinkWriteVis(m, down, r.vis);
        LinkingAbandoned(cfg, m, tx, buffers, answers, r, down, Linked(vis, r.queues), t, j);
        r := Linked(vis, r.queues);
        return;
      }
      t := t + 1;
    }
    rc := Done;
  }

  /** Exactly the queues that were not refused have a link; what the CPU writes at a queue's
      address goes to the buffer that the firmware linked to the queue; and queues of
      different channels share no byte. */
  ghost predicate LinkedWell(cfg: Config, m: Maps, buffers: nat, tx: TxQueues, answers: map<nat, Answer>, r: Linked)
    requires cfg.stride > 0 && tx.perChannel > 0
  {
    && (forall t: nat, j: nat | t < tx.channels && j < tx.perChannel ::
          Number(tx, t, j) in r.queues <==>
          Number(tx, t, j) == m.vi || AnswerFor(answers, Number(tx, t, j)) == Done)
    && (forall q | q in r.queues :: LinkGood(cfg, m, buffers, r.queues[q]) && SameBuffer(cfg, m, r, q))
    && forall q, p | q in r.queues && p in r.queues && Channel(tx, q) != Channel(tx, p) ::
         LinksDisjoint(cfg, r.queues[q], r.queues[p])
  }

  /** The queue's own VI and the one its packets are written through are linked to the same
      buffer. */
  predicate SameBuffer(cfg: Config, m: Maps, r: Linked, q: nat)
    requires cfg.stride > 0 && q in r.queues
  {
    var w := WrittenVi(cfg, m, r.queues[q].address);
    w >= 0 && w in r.vis && q in r.vis && r.vis[w] == r.vis[q] == r.queues[q].buffer
  }

  lemma WritesReachBuffer(cfg: Config, m: Maps, buffers: nat, r: Linked, q: nat)
    requires cfg.stride > 0 && q in r.queues && q in r.vis && r.vis[q] == r.queues[q].buffer
    requires LinkGood(cfg, m, buffers, r.queues[q])
    ensures var w := m.vi + r.queues[q].buffer;
            SameBuffer(cfg, m, r, q) <==> w in r.vis && r.vis[w] == w - m.vi
  {
    hide WrittenVi;
  }

  /** With all buffers there, the links are as they should be exactly if no VI that a queue's
      packets are written through is taken away from its buffer. */
  lemma LinkedQueues(cfg: Config, channelVis: nat, m: Maps, buffers: nat, tx: TxQueues,
                     answers: map<nat, Answer>, r: Linked)
    requires Legal(cfg) && channelVis > 0 && cfg.slice <= cfg.buffer && cfg.buffer % cfg.slice == 0
    requires buffers == BuffersNeeded(cfg, tx.channels) && m == Mappings(cfg, channelVis, buffers)
    requires tx.perChannel > 0 && Linking(cfg, m, tx, buffers, answers, r.vis, r.queues, tx.channels, 0)
    ensures LinkedWell(cfg, m, buffers, tx, answers, r) <==>
            forall q | q in r.queues :: Undisturbed(cfg, m, tx, answers, m.vi + r.queues[q].buffer)
  {
    hide Mappings, BuffersNeeded, LinkOf, LinkGood, LinksDisjoint, Number, Total, Channel, SameBuffer, Undisturbed;
    forall q | q in r.queues
      ensures LinkGood(cfg, m, buffers, r.queues[q])
      ensures SameBuffer(cfg, m, r, q) <==> Undisturbed(cfg, m, tx, answers, m.vi + r.queues[q].buffer) {
      LinksAreGood(cfg, channelVis, tx.channels, Channel(tx, q), Channel(tx, q));
      BufferExists(cfg, m, buffers, r.queues[q]);
      WritesReachBuffer(cfg, m, buffers, r, q);
      ViKeepsBufferIff(cfg, m, tx, buffers, answers, r.vis, r.queues, m.vi + r.queues[q].buffer);
    }
    forall q, p | q in r.queues && p in r.queues && Channel(tx, q) != Channel(tx, p)
      ensures LinksDisjoint(cfg, r.queues[q], r.queues[p]) {
      LinksAreGood(cfg, channelVis, tx.channels, Channel(tx, q), Channel(tx, p));
    }
  }

  lemma BufferExists(cfg: Config, m: Maps, buffers: nat, l: Link)
    requires cfg.stride > 0 && LinkGood(cfg, m, buffers, l)
    ensures l.buffer < buffers
  {}

  /** With a VI for each TX queue they are. */
  lemma EnoughVisLinkWell(cfg: Config, channelVis: nat, m: Maps, buffers: nat, tx: TxQueues,
                          answers: map<nat, Answer>, r: Linked)
    requires Legal(cfg) && channelVis > 0 && cfg.slice <= cfg.buffer && cfg.buffer % cfg.slice == 0
    requires buffers == BuffersNeeded(cfg, tx.channels) && m == Mappings(cfg, channelVis, buffers)
    requires tx.perChannel > 0 && Total(tx) <= channelVis
    requires Linking(cfg, m, tx, buffers, answers, r.vis, r.queues, tx.channels, 0)
    ensures LinkedWell(cfg, m, buffers, tx, answers, r)
  {
    EnoughVisNeverBug(cfg, tx, channelVis, buffers);
    hide Mappings, BuffersNeeded, Linking, Undisturbed, LinkedWell, Total;
    LinkedQueues(cfg, channelVis, m, buffers, tx, answers, r);
    forall q | q in r.queues ensures Undisturbed(cfg, m, tx, answers, m.vi + r.queues[q].buffer) {
      NoneDisturbed(cfg, m, tx, answers, m.vi + r.queues[q].buffer);
    }
  }

  // ---- With too few VIs ----

  const EXAMPLE := Config(256, 2048, 8192, 4096)

  const SIXTEEN := TxQueues(16, 1, 0)

  /** Sixteen queues, of which the last shares its VI; sixteen VIs granted, where seventeen
      would be needed for two buffers: the buffers are given back, and queue 15 gets a link
      with nothing behind it. */
  lemma UnbackedLink(answers: map<nat, Answer>, r: Linked)
    requires Linking(EXAMPLE, Mappings(EXAMPLE, 16, 2), SIXTEEN,
                     Kept(Mappings(EXAMPLE, 16, 2), 2, 16), answers, r.vis, r.queues, 16, 0)
    ensures Legal(EXAMPLE) && BuffersNeeded(EXAMPLE, 16) == 2 && Kept(Mappings(EXAMPLE, 16, 2), 2, 16) == 0
    ensures !BugFires(EXAMPLE, SIXTEEN, Mappings(EXAMPLE, 16, 2).vi)
    ensures 15 in r.queues && 15 !in r.vis
  {
    var m := Mappings(EXAMPLE, 16, 2);
    assert m.vi == 15 && Total(SIXTEEN) == 16;
    EnoughVisNeverBug(EXAMPLE, SIXTEEN, 16, 2);
    UnbackedIff(EXAMPLE, m, SIXTEEN, 2, 16, answers, r.vis, r.queues);
    LinkedIff(EXAMPLE, m, SIXTEEN, 0, answers, r.vis, r.queues, 15);
  }

  /** With fourteen VIs for them, VI 14, which buffer 1 is written through, ends up linked to
      buffer 0. */
  lemma ViTakenAway(answers: map<nat, Answer>, r: Linked)
    requires Linking(EXAMPLE, Mappings(EXAMPLE, 14, 2), SIXTEEN, 2, answers, r.vis, r.queues, 16, 0)
    requires AnswerFor(answers, 14) == Done
    ensures !BugFires(EXAMPLE, SIXTEEN, Mappings(EXAMPLE, 14, 2).vi)
    ensures 14 in r.vis && r.vis[14] == 0 && Mappings(EXAMPLE, 14, 2).vi + 1 == 14
  {
    var m := Mappings(EXAMPLE, 14, 2);
    assert m.vi == 13 && Total(SIXTEEN) == 16;
    assert Channel(SIXTEEN, 13) == 13 && Channel(SIXTEEN, 14) == 14;
    assert Index(EXAMPLE, 2) == 0 && Index(EXAMPLE, 1) == 0;
    BugFiresIff(EXAMPLE, SIXTEEN, 13);
    LinkedIff(EXAMPLE, m, SIXTEEN, 2, answers, r.vis, r.queues, 14);
    assert r.queues[14] == LinkOf(EXAMPLE, m, 16, 14);
  }

  /** And with four VIs the bug fires, for queue 3. */
  lemma BugFiresWithFour()
    ensures BugFires(EXAMPLE, SIXTEEN, Mappings(EXAMPLE, 4, 2).vi)
  {
    assert Mappings(EXAMPLE, 4, 2).vi == 3 && Total(SIXTEEN) == 16;
    assert Channel(SIXTEEN, 3) == 3 && Index(EXAMPLE, 12) == 1;
    BugFiresIff(EXAMPLE, SIXTEEN, 3);
  }
}
