/**
 * The inbound gateway: reads of any length are cut back into groups and
 * messages. A connection parses each read at once until a group is left
 * unfinished; from then on it only appends, and parses when a read would block.
 */
module Reassembly {
  import opened Bytes
  import opened Options
  import opened Sequences
  import opened Transport

  // ----- what the parser makes of the bytes received so far -----

  datatype Parsed = Parsed(msgs: seq<Msg>, rest: seq<Byte>)

  /** A group's messages, after its own size. */
  ghost predicate BodyOk(b: seq<Byte>)
    decreases |b|
  {
    b == [] || (8 <= |b| && 8 + FromLe(b[..8]) <= |b| && BodyOk(b[8 + FromLe(b[..8])..]))
  }

  function Msgs(b: seq<Byte>): (ms: seq<Msg>)
    requires BodyOk(b)
    decreases |b|
  {
    if b == [] then []
    else [b[8..8 + FromLe(b[..8])]] + Msgs(b[8 + FromLe(b[..8])..])
  }

  /** A whole group: its messages fill what follows its own size. */
  ghost predicate GroupOk(g: seq<Byte>) {
    |g| < 8 || BodyOk(g[8..])
  }

  function GroupMsgs(g: seq<Byte>): (ms: seq<Msg>)
    requires GroupOk(g)
  {
    if |g| < 8 then [] else Msgs(g[8..])
  }

  /** The size of the group at the front when all of it is there. */
  function FirstGroup(b: seq<Byte>): (n: Option<nat>)
    ensures n.Some? ==> n.value <= |b|
  {
    if |b| < 8 || FromLe(b[..8]) > |b| then None else Some(FromLe(b[..8]))
  }

  /**
   * What the loops need of their input to stay inside it and to end: no whole
   * group claims size zero, and the messages inside a group fill it.
   */
  ghost predicate Sane(b: seq<Byte>)
    decreases |b|
  {
    match FirstGroup(b)
    case None => true
    case Some(n) => 0 < n && GroupOk(b[..n]) && Sane(b[n..])
  }

  function Parse(b: seq<Byte>): (p: Parsed)
    requires Sane(b)
    decreases |b|
  {
    match FirstGroup(b)
    case None => Parsed([], b)
    case Some(n) =>
      var p := Parse(b[n..]);
      Parsed(GroupMsgs(b[..n]) + p.msgs, p.rest)
  }

  // ----- parsing what the sender wrote -----

  predicate Sendable(g: seq<Msg>) {
    8 + |Body(g)| < WORD64 && forall m :: m in g ==> |m| < WORD64
  }

  predicate AllSendable(groups: seq<seq<Msg>>) {
    forall g :: g in groups ==> Sendable(g)
  }

  lemma {:induction false} BodyRoundTrip(ms: seq<Msg>)
    requires forall m :: m in ms ==> |m| < WORD64
    ensures BodyOk(Body(ms)) && Msgs(Body(ms)) == ms
  {
    if ms == [] {
    } else {
      var b := Body(ms);
      SizeRoundTrip(|ms[0]|);
      assert b[..8] == Size(|ms[0]|);
      assert b[8..8 + |ms[0]|] == ms[0];
      assert b[8 + |ms[0]|..] == Body(ms[1..]);
      BodyRoundTrip(ms[1..]);
      assert ms == [ms[0]] + ms[1..];
    }
  }

  /** `t` is the start of some group, cut before its end. */
  ghost predicate Unfinished(t: seq<Byte>) {
    t == [] || exists g :: Sendable(g) && t < Frame(g)
  }

  lemma UnfinishedParse(t: seq<Byte>)
    requires Unfinished(t)
    ensures FirstGroup(t) == None && Sane(t) && Parse(t) == Parsed([], t)
  {
    if |t| >= 8 {
      var g :| Sendable(g) && t < Frame(g);
      SizeRoundTrip(8 + |Body(g)|);
      assert t[..8] == Size(8 + |Body(g)|);
    }
  }

  lemma FrontGroup(g: seq<Msg>, more: seq<Byte>)
    requires Sendable(g)
    ensures FirstGroup(Frame(g) + more) == Some(|Frame(g)|)
    ensures GroupOk(Frame(g)) && GroupMsgs(Frame(g)) == g
  {
    SizeRoundTrip(8 + |Body(g)|);
    assert (Frame(g) + more)[..8] == Size(8 + |Body(g)|);
    assert Frame(g)[8..] == Body(g);
    BodyRoundTrip(g);
  }

  /** Whole groups followed by an unfinished one parse to their messages and that remainder. */
  lemma {:induction false} ParseStream(groups: seq<seq<Msg>>, t: seq<Byte>)
    requires AllSendable(groups) && Unfinished(t)
    ensures Sane(Stream(groups) + t) && Parse(Stream(groups) + t) == Parsed(Flatten(groups), t)
  {
    if groups == [] {
      assert Stream(groups) + t == t;
      UnfinishedParse(t);
    } else {
      var f := Frame(groups[0]);
      var more := Stream(groups[1..]) + t;
      FrontGroup(groups[0], more);
      Assoc(f, Stream(groups[1..]), t);
      assert (f + more)[..|f|] == f && (f + more)[|f|..] == more;
      ParseStream(groups[1..], t);
    }
  }

  /** Any prefix of a stream is some whole groups and an unfinished one. */
  lemma {:induction false} PrefixSplits(groups: seq<seq<Msg>>, r: seq<Byte>) returns (k: nat, t: seq<Byte>)
    requires AllSendable(groups) && r <= Stream(groups)
    ensures k <= |groups| && r == Stream(groups[..k]) + t && Unfinished(t)
    ensures k == |groups| ==> t == []
    ensures k < |groups| ==> t < Frame(groups[k])
    decreases |groups|
  {
    if groups == [] {
      return 0, [];
    }
    var f := Frame(groups[0]);
    assert Sendable(groups[0]);
    if |r| < |f| {
      assert r < f;
      assert Stream(groups[..0]) == [];
      return 0, r;
    }
    var more := r[|f|..];
    assert r == f + more && more <= Stream(groups[1..]);
    k, t := PrefixSplits(groups[1..], more);
    assert groups[..k + 1][1..] == groups[1..][..k];
    Assoc(f, Stream(groups[1..][..k]), t);
    k := k + 1;
  }

  // ----- parsing in pieces -----

  /** Parsing may stop at any point and go on later with what was left over. */
  lemma {:induction false} ParseAppend(a: seq<Byte>, b: seq<Byte>)
    requires Sane(a + b)
    ensures Sane(a) && Sane(Parse(a).rest + b)
    ensures Parse(a + b).msgs == Parse(a).msgs + Parse(Parse(a).rest + b).msgs
    ensures Parse(a + b).rest == Parse(Parse(a).rest + b).rest
    decreases |a|
  {
    match FirstGroup(a)
    case None =>
    case Some(n) =>
      assert (a + b)[..8] == a[..8];
      assert FirstGroup(a + b) == Some(n);
      assert (a + b)[..n] == a[..n] && (a + b)[n..] == a[n..] + b;
      ParseAppend(a[n..], b);
      Assoc(GroupMsgs(a[..n]), Parse(a[n..]).msgs, Parse(Parse(a[n..]).rest + b).msgs);
  }

  /** What parsing leaves over holds no further whole group. */
  lemma {:induction false} RestIsUnparsed(b: seq<Byte>)
    requires Sane(b)
    ensures Sane(Parse(b).rest) && Parse(Parse(b).rest) == Parsed([], Parse(b).rest)
    decreases |b|
  {
    match FirstGroup(b)
    case None =>
    case Some(n) => RestIsUnparsed(b[n..]);
  }

  // ----- the connection -----

  datatype Conn = Conn(pending: Option<seq<Byte>>, delivered: seq<Msg>)

  datatype ReadEvent = Data(bytes: seq<Byte>) | WouldBlock

  function Held(c: Conn): seq<Byte> {
    if c.pending.Some? then c.pending.value else []
  }

  /** The loop a step runs stays inside its input and ends. */
  ghost predicate CanStep(c: Conn, e: ReadEvent) {
    match e
    case Data(b) => c.pending.Some? || Sane(b)
    case WouldBlock => Sane(Held(c))
  }

  ghost function Step(c: Conn, e: ReadEvent): Conn {
    if !CanStep(c, e) then c else
    match e
    case Data(b) =>
      if c.pending.Some? then c.(pending := Some(c.pending.value + b))
      else
        var p := Parse(b);
        Conn(if p.rest == [] then None else Some(p.rest), c.delivered + p.msgs)
    case WouldBlock =>
      if c.pending.None? then c
      else
        var p := Parse(c.pending.value);
        Conn(Some(p.rest), c.delivered + p.msgs)
  }

  /** Parsing `str`, with `todo` still to parse and `d` delivered on top of what `d0` held. */
  datatype Job = Job(d0: seq<Msg>, str: seq<Byte>, d: seq<Msg>, todo: seq<Byte>)

  ghost predicate Underway(j: Job) {
    match j
    case Job(d0, str, d, todo) =>
      && Sane(str) && Sane(todo)
      && Parse(todo).rest == Parse(str).rest
      && d + Parse(todo).msgs == d0 + Parse(str).msgs
  }

  lemma OneGroup(j: Job, n: nat)
    requires Underway(j) && FirstGroup(j.todo) == Some(n)
    ensures 0 < n <= |j.todo| && GroupOk(j.todo[..n])
    ensures Underway(j.(d := j.d + GroupMsgs(j.todo[..n]), todo := j.todo[n..]))
  {
    Assoc(j.d, GroupMsgs(j.todo[..n]), Parse(j.todo[n..]).msgs);
  }

  lemma NoGroup(j: Job)
    requires Underway(j) && FirstGroup(j.todo) == None
    ensures Sane(j.str) && j.todo == Parse(j.str).rest && j.d == j.d0 + Parse(j.str).msgs
  {
  }

  lemma SliceOf<T>(s: seq<T>, pos: nat, n: nat)
    requires pos + n <= |s|
    ensures s[pos..][..n] == s[pos..pos + n] && s[pos..][n..] == s[pos + n..]
  {
  }

  /** Cutting a group's body up: `d` is delivered and `todo` is left of what shall be `all`. */
  datatype Cut = Cut(all: seq<Msg>, d: seq<Msg>, todo: seq<Byte>)

  ghost predicate Cutting(c: Cut) {
    match c
    case Cut(all, d, todo) => BodyOk(todo) && d + Msgs(todo) == all
  }

  lemma FrontMessage(c: Cut) returns (s: nat, m: Msg, rest: seq<Byte>)
    requires Cutting(c) && c.todo != []
    ensures 8 + s <= |c.todo| && s == FromLe(c.todo[..8]) && m == c.todo[8..8 + s] && rest == c.todo[8 + s..]
    ensures Cutting(Cut(c.all, c.d + [m], rest))
  {
    s := FromLe(c.todo[..8]);
    m, rest := c.todo[8..8 + s], c.todo[8 + s..];
    Assoc(c.d, [m], Msgs(rest));
  }

  lemma NextAt(c: Cut, buf: seq<Byte>, pos: nat) returns (s: nat, m: Msg, rest: seq<Byte>)
    requires pos < |buf| && Cutting(c) && c.todo == buf[pos..]
    ensures pos + 8 + s <= |buf| && s == FromLe(buf[pos..pos + 8])
    ensures m == buf[pos + 8..pos + 8 + s] && rest == buf[pos + 8 + s..]
    ensures Cutting(Cut(c.all, c.d + [m], rest))
  {
    s, m, rest := FrontMessage(c);
    assert buf[pos..][..8] == buf[pos..pos + 8];
    assert buf[pos..][8..8 + s] == buf[pos + 8..pos + 8 + s] && buf[pos..][8 + s..] == buf[pos + 8 + s..];
  }

  lemma AllCut(c: Cut)
    requires Cutting(c) && c.todo == []
    ensures c.d == c.all
  {
    assert c.d + [] == c.d;
  }

  /** One socket of the inbound gateway. */
  class Connection {
    var pendingReads: Option<seq<Byte>>
    var delivered: seq<Msg>

    function State(): Conn
      reads this
    {
      Conn(pendingReads, delivered)
    }

    constructor ()
      ensures State() == Conn(None, [])
    {
      pendingReads := None;
      delivered := [];
    }

    /** inbufhandler: `buf` is one whole group. */
    method InbufHandler(buf: seq<Byte>)
      requires GroupOk(buf)
      modifies this`delivered
      ensures delivered == old(delivered) + GroupMsgs(buf)
    {
      var pos := 8;
      ghost var c := Cut(delivered + GroupMsgs(buf), delivered, if |buf| < 8 then [] else buf[8..]);
      while pos < |buf|
        invariant Cutting(c) && c.all == old(delivered) + GroupMsgs(buf) && c.d == delivered
        invariant c.todo == if pos <= |buf| then buf[pos..] else []
        decreases |buf| - pos
      {
        ghost var size, msg, rest := NextAt(c, buf, pos);
        var s := FromLe(buf[pos..pos + 8]);
        pos := pos + 8;
        delivered := delivered + [buf[pos..pos + s]];
        pos := pos + s;
        c := Cut(c.all, c.d + [msg], rest);
      }
      AllCut(c);
    }

    /** The parsing loop both branches of the read loop contain. */
    method Consume(str: seq<Byte>) returns (pos: nat)
      requires Sane(str)
      modifies this`delivered
      ensures pos <= |str| && str[pos..] == Parse(str).rest
      ensures delivered == old(delivered) + Parse(str).msgs
    {
      pos := 0;
      assert str[pos..] == str;
      ghost var j := Job(delivered, str, delivered, str);
      while pos < |str|
        invariant pos <= |str| && delivered == j.d && str[pos..] == j.todo
        invariant j.d0 == old(delivered) && j.str == str && Underway(j)
        decreases |str| - pos
      {
        var packagesize := GroupAt(str, pos);
        if packagesize.None? {
          break;
        }
        OneGroup(j, packagesize.value);
        SliceOf(str, pos, packagesize.value);
        InbufHandler(str[pos..pos + packagesize.value]);
        j := j.(d := j.d + GroupMsgs(j.todo[..packagesize.value]), todo := j.todo[packagesize.value..]);
        pos := pos + packagesize.value;
      }
      NoGroup(j);
    }

    /** Whether the size of the next group, and then the group itself, can be read. */
    static method GroupAt(str: seq<Byte>, pos: nat) returns (packagesize: Option<nat>)
      requires pos <= |str|
      ensures packagesize == FirstGroup(str[pos..])
    {
      if 8 > |str| - pos {
        return None;
      }
      SliceOf(str, pos, 8);
      if FromLe(str[pos..pos + 8]) > |str| - pos {
        return None;
      }
      return Some(FromLe(str[pos..pos + 8]));
    }

    /** read returned bytes. */
    method OnData(bytes: seq<Byte>)
      requires CanStep(State(), Data(bytes))
      modifies this
      ensures State() == Step(old(State()), Data(bytes))
    {
      if pendingReads.Some? {
        pendingReads := Some(pendingReads.value + bytes);
      } else {
        var pos := Consume(bytes);
        if pos < |bytes| {
          pendingReads := Some(bytes[pos..]);
        }
      }
    }

    /** read would block: the pending bytes are parsed, and the entry stays even when it is empty. */
    method OnWouldBlock()
      requires CanStep(State(), WouldBlock)
      modifies this
      ensures State() == Step(old(State()), WouldBlock)
    {
      if pendingReads.Some? {
        var pos := Consume(pendingReads.value);
        pendingReads := Some(pendingReads.value[pos..]);
      }
    }
  }

  // ----- whole runs -----

  function Received(run: seq<ReadEvent>): seq<Byte>
    decreases |run|
  {
    if run == [] then []
    else Received(run[..|run| - 1]) + BytesOf(run[|run| - 1])
  }

  function BytesOf(e: ReadEvent): seq<Byte> {
    match e
    case Data(b) => b
    case WouldBlock => []
  }

  ghost function AfterFrom(c: Conn, run: seq<ReadEvent>): Conn
    decreases |run|
  {
    if run == [] then c else Step(AfterFrom(c, run[..|run| - 1]), run[|run| - 1])
  }

  ghost function After(run: seq<ReadEvent>): Conn {
    AfterFrom(Conn(None, []), run)
  }

  /** What was delivered, and what parsing the held bytes would still deliver, is the parse of everything received. */
  ghost predicate Tracks(c: Conn, received: seq<Byte>) {
    && Sane(received) && Sane(Held(c))
    && Parse(received).msgs == c.delivered + Parse(Held(c)).msgs
    && Parse(received).rest == Parse(Held(c)).rest
  }

  lemma BlockTracks(c: Conn, received: seq<Byte>)
    requires Tracks(c, received)
    ensures CanStep(c, WouldBlock) && Tracks(Step(c, WouldBlock), received)
    ensures Held(Step(c, WouldBlock)) == Parse(received).rest
    ensures Step(c, WouldBlock).delivered == Parse(received).msgs
  {
    RestIsUnparsed(Held(c));
  }

  lemma AppendTracks(c: Conn, received: seq<Byte>, b: seq<Byte>)
    requires Sane(received + b) && Tracks(c, received) && c.pending.Some?
    ensures Tracks(c.(pending := Some(c.pending.value + b)), received + b)
  {
    var held := c.pending.value;
    var rest := Parse(held).rest;
    ParseAppend(received, b);
    HeldSane(held, b);
    ParseAppend(held, b);
    Assoc(c.delivered, Parse(held).msgs, Parse(rest + b).msgs);
  }

  lemma DirectTracks(c: Conn, received: seq<Byte>, b: seq<Byte>)
    requires Sane(received + b) && Tracks(c, received) && c.pending.None?
    ensures Sane(b) && Tracks(Step(c, Data(b)), received + b)
  {
    ParseAppend(received, b);
    assert Parse(received) == Parsed(c.delivered, []) && [] + b == b;
    RestIsUnparsed(b);
  }

  lemma {:induction false} HeldSane(held: seq<Byte>, b: seq<Byte>)
    requires Sane(held) && Sane(Parse(held).rest + b)
    ensures Sane(held + b)
    decreases |held|
  {
    match FirstGroup(held)
    case None =>
    case Some(n) =>
      assert (held + b)[..8] == held[..8];
      assert FirstGroup(held + b) == Some(n);
      assert (held + b)[..n] == held[..n] && (held + b)[n..] == held[n..] + b;
      HeldSane(held[n..], b);
  }

  lemma StepTracks(c: Conn, received: seq<Byte>, e: ReadEvent)
    requires Tracks(c, received) && Sane(received + BytesOf(e))
    ensures CanStep(c, e) && Tracks(Step(c, e), received + BytesOf(e))
    ensures e.WouldBlock? ==> Step(c, e).delivered == Parse(received).msgs && Held(Step(c, e)) == Parse(received).rest
  {
    match e
    case WouldBlock =>
      assert received + [] == received;
      BlockTracks(c, received);
    case Data(b) =>
      if c.pending.Some? {
        AppendTracks(c, received, b);
      } else {
        DirectTracks(c, received, b);
      }
  }

  /** From a connection that tracks `r0`, however the further bytes are cut into reads. */
  lemma {:induction false} RunTracksFrom(c: Conn, r0: seq<Byte>, run: seq<ReadEvent>, received: seq<Byte>)
    requires Tracks(c, r0) && received == r0 + Received(run) && Sane(received)
    ensures Tracks(AfterFrom(c, run), received)
    ensures run != [] ==> CanStep(AfterFrom(c, run[..|run| - 1]), run[|run| - 1])
    ensures run != [] && run[|run| - 1].WouldBlock? ==>
              AfterFrom(c, run).delivered == Parse(received).msgs && Held(AfterFrom(c, run)) == Parse(received).rest
    decreases |run|
  {
    if run == [] {
      assert r0 + [] == r0;
    } else {
      var before, e := run[..|run| - 1], run[|run| - 1];
      var r1 := r0 + Received(before);
      assert received == r1 + BytesOf(e);
      ParseAppend(r1, BytesOf(e));
      RunTracksFrom(c, r0, before, r1);
      StepTracks(AfterFrom(c, before), r1, e);
      assert e.WouldBlock? ==> received == r1;
    }
  }

  lemma FreshTracks(pending: Option<seq<Byte>>, tail: seq<Byte>)
    requires Sane(tail) && Held(Conn(pending, [])) == tail
    ensures Tracks(Conn(pending, []), tail)
  {
    assert [] + Parse(tail).msgs == Parse(tail).msgs;
  }

  /** However the bytes are cut into reads, no step runs out of its input and the connection tracks them. */
  lemma RunTracks(run: seq<ReadEvent>)
    requires Sane(Received(run))
    ensures Tracks(After(run), Received(run))
    ensures run != [] ==> Sane(Received(run[..|run| - 1])) && CanStep(After(run[..|run| - 1]), run[|run| - 1])
    ensures run != [] && run[|run| - 1].WouldBlock? ==>
              After(run).delivered == Parse(Received(run)).msgs && Held(After(run)) == Parse(Received(run)).rest
  {
    FreshTracks(None, []);
    NothingBefore(Received(run));
    RunTracksFrom(Conn(None, []), [], run, Received(run));
    PrefixSane(run);
  }

  lemma PrefixSane(run: seq<ReadEvent>)
    requires run != [] ==> Sane(Received(run))
    ensures run != [] ==> Sane(Received(run[..|run| - 1]))
  {
    if run != [] {
      ParseAppend(Received(run[..|run| - 1]), BytesOf(run[|run| - 1]));
    }
  }

  /**
   * A connection that hangs up keeps its tail in the table, where the next one with
   * its descriptor finds it: that one reads as if the tail had come first.
   */
  lemma StaleTail(tail: seq<Byte>, run: seq<ReadEvent>)
    requires Sane(tail + Received(run)) && run != [] && run[|run| - 1].WouldBlock?
    ensures AfterFrom(Conn(Some(tail), []), run).delivered == Parse(tail + Received(run)).msgs
  {
    ParseAppend(tail, Received(run));
    FreshTracks(Some(tail), tail);
    RunTracksFrom(Conn(Some(tail), []), tail, run, tail + Received(run));
  }

  /** A message cut off before its last byte takes the first byte of the new connection for it. */
  lemma StaleTailMisreads(m: Msg, x: Byte, y: Byte)
    requires Sendable([m + [x]])
    ensures var f := Frame([m + [x]]);
      AfterFrom(Conn(Some(f[..|f| - 1]), []), [Data([y]), WouldBlock]).delivered == [m + [y]]
  {
    var f, g := Frame([m + [x]]), Frame([m + [y]]);
    OneMessage(m, x);
    OneMessage(m, y);
    assert f[..|f| - 1] + [y] == g;
    ParseOne([m + [y]]);
    TwoReads(y);
    StaleTail(f[..|f| - 1], [Data([y]), WouldBlock]);
  }

  lemma TwoReads(y: Byte)
    ensures Received([Data([y]), WouldBlock]) == [y]
  {
    var run := [Data([y]), WouldBlock];
    var first := [Data([y])];
    assert run[..1] == first && first[..0] == [];
    assert Received(first) == [y];
  }

  lemma ParseOne(ms: seq<Msg>)
    requires Sendable(ms)
    ensures Sane(Frame(ms)) && Parse(Frame(ms)).msgs == ms
  {
    var g := Frame(ms);
    FrontGroup(ms, []);
    assert g + [] == g && g[..|g|] == g && g[|g|..] == [];
    assert ms + [] == ms;
  }

  lemma OneMessage(m: Msg, x: Byte)
    ensures Frame([m + [x]]) == (Size(8 + (8 + |m| + 1)) + Size(|m| + 1) + m) + [x]
  {
    assert [m + [x]][1..] == [];
    assert Body([m + [x]]) == Size(|m| + 1) + (m + [x]);
  }

  /**
   * At every would-block point the delivered messages are those of the groups
   * received in full, in order, and what is held is the unfinished tail.
   */
  lemma WouldBlockPoint(groups: seq<seq<Msg>>, run: seq<ReadEvent>) returns (k: nat)
    requires AllSendable(groups) && Received(run) <= Stream(groups)
    requires run != [] && run[|run| - 1].WouldBlock?
    ensures k <= |groups| && After(run).delivered == Flatten(groups[..k])
    ensures Received(run) == Stream(groups[..k]) + Held(After(run))
    ensures if k == |groups| then Held(After(run)) == [] else Held(After(run)) < Frame(groups[k])
  {
    var t;
    k, t := PrefixSplits(groups, Received(run));
    ParseStream(groups[..k], t);
    RunTracks(run);
  }

  /** Between the two gateways: one node receives a prefix of what was accepted for it, all of it once all bytes are in. */
  lemma EndToEnd(accepted: seq<Item>, d: Node, groups: seq<seq<Msg>>, waiting: seq<Msg>, run: seq<ReadEvent>)
    requires Flatten(groups) + waiting == For(d, accepted)
    requires AllSendable(groups) && Received(run) <= Stream(groups)
    requires run != [] && run[|run| - 1].WouldBlock?
    ensures After(run).delivered <= For(d, accepted)
    ensures Received(run) == Stream(groups) ==> After(run).delivered + waiting == For(d, accepted)
  {
    var more := StillToCome(groups, run);
    Assoc(After(run).delivered, more, waiting);
    if Received(run) == Stream(groups) {
      AllReceived(groups, run);
    }
  }

  lemma StillToCome(groups: seq<seq<Msg>>, run: seq<ReadEvent>) returns (more: seq<Msg>)
    requires AllSendable(groups) && Received(run) <= Stream(groups)
    requires run != [] && run[|run| - 1].WouldBlock?
    ensures Flatten(groups) == After(run).delivered + more
  {
    var k := WouldBlockPoint(groups, run);
    FlattenSplit(groups, k);
    more := Flatten(groups[k..]);
  }

  lemma AllReceived(groups: seq<seq<Msg>>, run: seq<ReadEvent>)
    requires AllSendable(groups) && Received(run) == Stream(groups)
    requires run != [] && run[|run| - 1].WouldBlock?
    ensures After(run).delivered == Flatten(groups)
  {
    ParseStream(groups, []);
    assert Stream(groups) + [] == Stream(groups);
    RunTracks(run);
  }

  // ----- when a read is parsed at once -----

  /** With nothing pending a read is parsed at once: its whole groups are delivered and only an unfinished one is held. */
  lemma ReadAtOnce(c: Conn, groups: seq<seq<Msg>>, t: seq<Byte>)
    requires c.pending.None? && AllSendable(groups) && Unfinished(t)
    ensures Step(c, Data(Stream(groups) + t)) == Conn(if t == [] then None else Some(t), c.delivered + Flatten(groups))
  {
    ParseStream(groups, t);
  }

  predicate OnlyData(run: seq<ReadEvent>) {
    forall e :: e in run ==> e.Data?
  }

  /** Once something is pending, reads only append, for good: nothing is delivered until one would block. */
  lemma {:induction false} PendingForGood(c: Conn, run: seq<ReadEvent>)
    requires c.pending.Some?
    ensures AfterFrom(c, run).pending.Some?
    ensures OnlyData(run) ==> AfterFrom(c, run) == Conn(Some(c.pending.value + Received(run)), c.delivered)
    decreases |run|
  {
    if run == [] {
      assert c.pending.value + [] == c.pending.value;
    } else {
      var before, e := run[..|run| - 1], run[|run| - 1];
      PendingForGood(c, before);
      assert e in run && forall x :: x in before ==> x in run;
      Assoc(c.pending.value, Received(before), BytesOf(e));
    }
  }

  // ----- closing a connection, which drops what it holds -----

  /** `h` is `a` without some whole groups at its front. */
  ghost predicate CutAt(a: seq<Byte>, h: seq<Byte>)
    decreases |a|
  {
    h == a || match FirstGroup(a) case None => false case Some(n) => 0 < n && CutAt(a[n..], h)
  }

  lemma {:induction false} CutAppend(a: seq<Byte>, h: seq<Byte>, b: seq<Byte>)
    requires CutAt(a, h)
    ensures CutAt(a + b, h + b)
    decreases |a|
  {
    if h != a {
      var n := FirstGroup(a).value;
      assert (a + b)[..8] == a[..8] && (a + b)[n..] == a[n..] + b;
      CutAppend(a[n..], h, b);
    }
  }

  /** Parsing goes on removing groups from the front. */
  lemma {:induction false} CutRest(a: seq<Byte>, h: seq<Byte>)
    requires CutAt(a, h) && Sane(h)
    ensures CutAt(a, Parse(h).rest)
    decreases |a|
  {
    match FirstGroup(a)
    case None =>
    case Some(n) =>
      if h == a {
        CutRest(a[n..], a[n..]);
      } else {
        CutRest(a[n..], h);
      }
  }

  lemma StepCuts(received: seq<Byte>, c: Conn, e: ReadEvent)
    requires CutAt(received, Held(c)) && CanStep(c, e) && Sane(Held(c))
    ensures CutAt(received + BytesOf(e), Held(Step(c, e)))
  {
    match e
    case WouldBlock =>
      assert received + [] == received;
      CutRest(received, Held(c));
    case Data(b) =>
      CutAppend(received, Held(c), b);
      if c.pending.None? {
        assert [] + b == b;
        CutRest(received + b, b);
      }
  }

  /** A connection always holds what it received from the start of some group on. */
  lemma {:induction false} RunCuts(run: seq<ReadEvent>)
    requires Sane(Received(run))
    ensures CutAt(Received(run), Held(After(run)))
    decreases |run|
  {
    if run != [] {
      var before, e := run[..|run| - 1], run[|run| - 1];
      RunTracks(run);
      RunTracks(before);
      RunCuts(before);
      StepCuts(Received(before), After(before), e);
    }
  }

  /** Every whole group at the front has a message. */
  ghost predicate Full(b: seq<Byte>)
    decreases |b|
  {
    match FirstGroup(b)
    case None => true
    case Some(n) => 0 < n && GroupOk(b[..n]) && GroupMsgs(b[..n]) != [] && Full(b[n..])
  }

  lemma {:induction false} CutFull(a: seq<Byte>, h: seq<Byte>)
    requires Full(a) && CutAt(a, h)
    ensures Full(h)
    decreases |a|
  {
    if h != a {
      CutFull(a[FirstGroup(a).value..], h);
    }
  }

  lemma {:induction false} StreamFull(groups: seq<seq<Msg>>, t: seq<Byte>)
    requires AllSendable(groups) && [] !in groups && Unfinished(t)
    ensures Full(Stream(groups) + t)
  {
    if groups == [] {
      assert Stream(groups) + t == t;
      UnfinishedParse(t);
    } else {
      var f := Frame(groups[0]);
      var more := Stream(groups[1..]) + t;
      FrontGroup(groups[0], more);
      Assoc(f, Stream(groups[1..]), t);
      assert (f + more)[..|f|] == f && (f + more)[|f|..] == more;
      StreamFull(groups[1..], t);
    }
  }

  /**
   * Exactly when closing the connection loses messages that have come in full:
   * when its parsing loop would still find a whole group in what it holds.
   */
  lemma CloseLoses(groups: seq<seq<Msg>>, run: seq<ReadEvent>) returns (k: nat)
    requires AllSendable(groups) && [] !in groups && Received(run) <= Stream(groups)
    ensures k <= |groups| && Stream(groups[..k]) <= Received(run)
    ensures k < |groups| ==> |Received(run)| < |Stream(groups[..k])| + |Frame(groups[k])|
    ensures After(run).delivered <= Flatten(groups[..k])
    ensures After(run).delivered != Flatten(groups[..k]) <==> FirstGroup(Held(After(run))).Some?
  {
    var t;
    k, t := PrefixSplits(groups, Received(run));
    ParseStream(groups[..k], t);
    StreamFull(groups[..k], t);
    RunTracks(run);
    RunCuts(run);
    CutFull(Received(run), Held(After(run)));
    assert After(run).delivered + Parse(Held(After(run))).msgs == Flatten(groups[..k]);
  }

  /** It happens when a group comes in two reads and the connection is closed before a read blocks. */
  lemma ClosedTooEarly(m: Msg)
    requires Sendable([m])
    ensures var f := Frame([m]);
      var c := After([Data(f[..1]), Data(f[1..])]);
      c.delivered == [] && Held(c) == f && FirstGroup(f).Some? && Sane(f) && Parse(f).msgs == [m]
  {
    var f := Frame([m]);
    var run := [Data(f[..1]), Data(f[1..])];
    var first := [Data(f[..1])];
    assert run[..1] == first && first[..0] == [];
    assert Parse(f[..1]) == Parsed([], f[..1]);
    assert AfterFrom(Conn(None, []), first[..0]) == Conn(None, []);
    assert After(first) == Conn(Some(f[..1]), []);
    assert f[..1] + f[1..] == f;
    FrontGroup([m], []);
    assert f + [] == f && f[..|f|] == f && f[|f|..] == [];
  }
}
