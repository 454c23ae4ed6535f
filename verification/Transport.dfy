/**
 * Node-to-node transport: outbound batching in the producer, per-destination
 * framing in the outbound gateway, and reassembly in the inbound gateway.
 *
 * A group on the wire is its own total size in 8 bytes, then each message as 8
 * bytes of size and its text.
 */
module Transport {
  import opened Bytes
  import opened Options
  import opened Sequences

  type Node = int
  type Msg = seq<Byte>

  /** A serialized message and the node it is for. */
  datatype Item = Item(node: Node, msg: Msg)

  // ----- the wire format -----

  function Body(ms: seq<Msg>): seq<Byte> {
    if ms == [] then [] else Size(|ms[0]|) + ms[0] + Body(ms[1..])
  }

  function Frame(ms: seq<Msg>): seq<Byte> {
    Size(8 + |Body(ms)|) + Body(ms)
  }

  function Stream(groups: seq<seq<Msg>>): seq<Byte> {
    if groups == [] then [] else Frame(groups[0]) + Stream(groups[1..])
  }

  function Flatten<T>(groups: seq<seq<T>>): seq<T> {
    if groups == [] then [] else groups[0] + Flatten(groups[1..])
  }

  /** The messages for one node, in order. */
  function For(d: Node, items: seq<Item>): seq<Msg> {
    if items == [] then []
    else (if items[0].node == d then [items[0].msg] else []) + For(d, items[1..])
  }

  lemma {:induction false} BodySnoc(ms: seq<Msg>, m: Msg)
    ensures Body(ms + [m]) == Body(ms) + Size(|m|) + m
  {
    if ms == [] {
      assert Body([]) == [];
      assert [m][1..] == [];
    } else {
      assert (ms + [m])[1..] == ms[1..] + [m];
      BodySnoc(ms[1..], m);
    }
  }

  lemma {:induction false} StreamSnoc(groups: seq<seq<Msg>>, g: seq<Msg>)
    ensures Stream(groups + [g]) == Stream(groups) + Frame(g)
  {
    if groups == [] {
      assert [g][1..] == [];
    } else {
      assert (groups + [g])[1..] == groups[1..] + [g];
      StreamSnoc(groups[1..], g);
    }
  }

  lemma {:induction false} FlattenAppend<T>(a: seq<seq<T>>, b: seq<seq<T>>)
    ensures Flatten(a + b) == Flatten(a) + Flatten(b)
  {
    if a == [] {
      assert a + b == b;
    } else {
      assert (a + b)[1..] == a[1..] + b;
      FlattenAppend(a[1..], b);
    }
  }

  lemma FlattenSplit<T>(a: seq<seq<T>>, k: nat)
    requires k <= |a|
    ensures Flatten(a) == Flatten(a[..k]) + Flatten(a[k..])
  {
    assert a == a[..k] + a[k..];
    FlattenAppend(a[..k], a[k..]);
  }

  lemma FlattenSnoc<T>(a: seq<seq<T>>, g: seq<T>)
    ensures Flatten(a + [g]) == Flatten(a) + g
  {
    FlattenAppend(a, [g]);
    assert Flatten([g]) == g + Flatten([g][1..]);
  }

  lemma {:induction false} ForAppend(d: Node, a: seq<Item>, b: seq<Item>)
    ensures For(d, a + b) == For(d, a) + For(d, b)
  {
    if a == [] {
      assert a + b == b;
    } else {
      assert (a + b)[1..] == a[1..] + b;
      ForAppend(d, a[1..], b);
    }
  }

  /** A group with one message of one byte: its size, the message's size, the byte, sizes low byte first. */
  lemma FrameExample(x: Byte)
    ensures Frame([[x]]) == [17, 0, 0, 0, 0, 0, 0, 0] + [1, 0, 0, 0, 0, 0, 0, 0] + [x]
  {
    assert [[x]][1..] == [] && Body([[x]]) == Size(1) + [x];
    assert Size(1) == [1, 0, 0, 0, 0, 0, 0, 0] && Size(17) == [17, 0, 0, 0, 0, 0, 0, 0];
  }

  // ----- the producer's outbound batch -----

  const OBGWMSGBATCHSIZE: nat := 5000

  class BatchSerialized {
    var nmsgs: nat
    const msgbatch: array<Item>

    constructor ()
      ensures nmsgs == 0 && fresh(msgbatch) && msgbatch.Length == OBGWMSGBATCHSIZE
    {
      nmsgs := 0;
      msgbatch := new Item[OBGWMSGBATCHSIZE](_ => Item(0, []));
    }
  }

  type Pid = int

  /** A batch in the gateway's mailbox, and the producer that handed it over. */
  datatype Post = Post(src: Pid, batch: seq<Item>)

  /** What a producer has accepted: whole batches, and then what still waits for one. */
  datatype Handed = Handed(waiting: seq<Item>, batches: seq<seq<Item>>)

  function AfterSend(waiting: seq<Item>, item: Item): Handed {
    if |waiting| + 1 == OBGWMSGBATCHSIZE then Handed([], [waiting + [item]]) else Handed(waiting + [item], [])
  }

  function AfterFlush(waiting: seq<Item>): Handed {
    Handed([], if waiting == [] then [] else [waiting])
  }

  function Posts(src: Pid, batches: seq<seq<Item>>): seq<Post> {
    if batches == [] then [] else Posts(src, batches[..|batches| - 1]) + [Post(src, batches[|batches| - 1])]
  }

  /** The gateway's mailbox: every actor has a producer of its own into it. */
  class Slot {
    var posts: seq<Post>
    /** What the gateway has received from here. */
    ghost var taken: seq<Post>

    constructor ()
      ensures posts == [] && taken == []
    {
      posts, taken := [], [];
    }

    method Receive() returns (post: Option<Post>)
      modifies this
      ensures taken + posts == old(taken) + old(posts)
      ensures if old(posts) == [] then post == None && posts == [] && taken == old(taken)
              else post == Some(old(posts)[0]) && posts == old(posts)[1..] && taken == old(taken) + [old(posts)[0]]
    {
      if posts == [] {
        return None;
      }
      Assoc(taken, [posts[0]], posts[1..]);
      assert posts == [posts[0]] + posts[1..];
      post := Some(posts[0]);
      taken := taken + [posts[0]];
      posts := posts[1..];
    }
  }

  /** A producer whose destination is the gateway's mailbox. */
  class Producer {
    const id: Pid
    const mbox: Slot
    var obBatchMsg: BatchSerialized?

    ghost predicate Valid()
      reads this, obBatchMsg
    {
      obBatchMsg != null ==>
        obBatchMsg.msgbatch.Length == OBGWMSGBATCHSIZE && 0 < obBatchMsg.nmsgs < OBGWMSGBATCHSIZE
    }

    /** What is batched and not yet handed over. */
    ghost function Waiting(): seq<Item>
      reads this, obBatchMsg, if obBatchMsg == null then {} else {obBatchMsg.msgbatch}
    {
      if obBatchMsg != null && obBatchMsg.nmsgs <= obBatchMsg.msgbatch.Length
      then obBatchMsg.msgbatch[..obBatchMsg.nmsgs] else []
    }

    constructor (id: Pid, mbox: Slot)
      ensures Valid() && Waiting() == [] && this.id == id && this.mbox == mbox && obBatchMsg == null
    {
      this.id, this.mbox := id, mbox;
      obBatchMsg := null;
    }

    /** The remote branch of sendMsg. */
    method SendMsg(node: Node, m: Msg)
      requires Valid()
      modifies this, mbox`posts, obBatchMsg, if obBatchMsg == null then {} else {obBatchMsg.msgbatch}
      ensures Valid() && |old(Waiting())| < OBGWMSGBATCHSIZE
      ensures if |old(Waiting())| + 1 == OBGWMSGBATCHSIZE
              then Waiting() == [] && mbox.posts == old(mbox.posts) + [Post(id, old(Waiting()) + [Item(node, m)])]
              else Waiting() == old(Waiting()) + [Item(node, m)] && mbox.posts == old(mbox.posts)
      ensures obBatchMsg == old(obBatchMsg) || obBatchMsg == null || fresh(obBatchMsg)
    {
      ghost var waiting := Waiting();
      if obBatchMsg == null {
        obBatchMsg := new BatchSerialized();
      }
      obBatchMsg.msgbatch[obBatchMsg.nmsgs] := Item(node, m);
      obBatchMsg.nmsgs := obBatchMsg.nmsgs + 1;
      assert Waiting() == waiting + [Item(node, m)];
      if obBatchMsg.nmsgs == OBGWMSGBATCHSIZE {
        HandOver();
      }
    }

    /** Mboxes::sendObBatch */
    method SendObBatch()
      requires Valid()
      modifies this`obBatchMsg, mbox`posts
      ensures Valid() && Waiting() == [] && obBatchMsg == null
      ensures mbox.posts == old(mbox.posts) + if old(Waiting()) == [] then [] else [Post(id, old(Waiting()))]
    {
      if obBatchMsg != null {
        HandOver();
      }
    }

    method HandOver()
      requires obBatchMsg != null && obBatchMsg.msgbatch.Length == OBGWMSGBATCHSIZE
      requires 0 < obBatchMsg.nmsgs <= OBGWMSGBATCHSIZE
      modifies this`obBatchMsg, mbox`posts
      ensures obBatchMsg == null && mbox.posts == old(mbox.posts) + [Post(id, old(Waiting()))]
    {
      var batch := obBatchMsg.msgbatch[..obBatchMsg.nmsgs];
      mbox.posts := mbox.posts + [Post(id, batch)];
      obBatchMsg := null;
    }
  }

  // ----- the outbound gateway -----

  const SERIALIZEDMAXSIZE: nat := 1048576

  function Get<T>(m: map<Node, seq<T>>, d: Node): seq<T> {
    if d in m then m[d] else []
  }

  /** Going from `g`, `p` to `h`, `q`, each list that left the pending map became one more group of its node. */
  ghost predicate SentFrom(g: map<Node, seq<seq<Msg>>>, p: map<Node, seq<Msg>>,
                           h: map<Node, seq<seq<Msg>>>, q: map<Node, seq<Msg>>) {
    forall d: Node ::
      && Get(h, d) == Get(g, d) + (if d in p && d !in q then [p[d]] else [])
      && (d in q ==> d in p && q[d] == p[d])
  }

  lemma SentOne(g: map<Node, seq<seq<Msg>>>, p: map<Node, seq<Msg>>,
                h: map<Node, seq<seq<Msg>>>, q: map<Node, seq<Msg>>, d: Node)
    requires SentFrom(g, p, h, q) && d in q
    ensures |q - {d}| < |q|
    ensures SentFrom(g, p, h[d := Get(h, d) + [q[d]]], q - {d})
  {
    var h' := h[d := Get(h, d) + [q[d]]];
    assert (q - {d}).Keys == q.Keys - {d};
    assert |(q - {d}).Keys| < |q.Keys|;
    forall e: Node
      ensures Get(h', e) == Get(g, e) + (if e in p && e !in q - {d} then [p[e]] else [])
      ensures e in q - {d} ==> e in p && q[e] == p[e]
    {
      assert Get(h, e) == Get(g, e) + (if e in p && e !in q then [p[e]] else []);
    }
  }

  lemma BodyStep(ms: seq<Msg>, n: nat)
    requires n < |ms|
    ensures Body(ms[..n + 1]) == Body(ms[..n]) + (Size(|ms[n]|) + ms[n])
    ensures |Body(ms[n..])| == 8 + |ms[n]| + |Body(ms[n + 1..])|
  {
    assert ms[n..][1..] == ms[n + 1..];
    assert ms[..n + 1] == ms[..n] + [ms[n]];
    BodySnoc(ms[..n], ms[n]);
    assert Body(ms[..n]) + Size(|ms[n]|) + ms[n] == Body(ms[..n]) + (Size(|ms[n]|) + ms[n]);
  }


  /**
   * Nothing accepted is lost, duplicated or put behind a later message for the
   * same node; what is on the wire is whole groups, none of them empty.
   */
  ghost predicate Faithful(wire: map<Node, seq<Byte>>, groups: map<Node, seq<seq<Msg>>>,
                           pending: map<Node, seq<Msg>>, accepted: seq<Item>) {
    forall d: Node ::
      && Get(wire, d) == Stream(Get(groups, d))
      && Flatten(Get(groups, d)) + Get(pending, d) == For(d, accepted)
      && [] !in Get(groups, d) && (d in pending ==> pending[d] != [])
  }

  lemma PushFaithful(wire: map<Node, seq<Byte>>, groups: map<Node, seq<seq<Msg>>>,
                     pending: map<Node, seq<Msg>>, accepted: seq<Item>, item: Item)
    requires Faithful(wire, groups, pending, accepted)
    ensures Faithful(wire, groups, pending[item.node := Get(pending, item.node) + [item.msg]], accepted + [item])
  {
    var pending' := pending[item.node := Get(pending, item.node) + [item.msg]];
    forall d: Node
      ensures Get(wire, d) == Stream(Get(groups, d))
      ensures Flatten(Get(groups, d)) + Get(pending', d) == For(d, accepted + [item])
      ensures [] !in Get(groups, d) && (d in pending' ==> pending'[d] != [])
    {
      ForAppend(d, accepted, [item]);
      assert [item][1..] == [];
      assert Flatten(Get(groups, d)) + Get(pending, d) == For(d, accepted);
      if d == item.node {
        Assoc(Flatten(Get(groups, d)), Get(pending, d), [item.msg]);
      } else {
        assert Get(pending', d) == Get(pending, d);
      }
    }
  }

  lemma SendFaithful(wire: map<Node, seq<Byte>>, groups: map<Node, seq<seq<Msg>>>,
                     pending: map<Node, seq<Msg>>, accepted: seq<Item>, d: Node)
    requires Faithful(wire, groups, pending, accepted) && d in pending
    ensures Faithful(wire[d := Get(wire, d) + Frame(pending[d])],
                     groups[d := Get(groups, d) + [pending[d]]], pending - {d}, accepted)
  {
    StreamSnoc(Get(groups, d), pending[d]);
    FlattenSnoc(Get(groups, d), pending[d]);
    var wire' := wire[d := Get(wire, d) + Frame(pending[d])];
    var groups' := groups[d := Get(groups, d) + [pending[d]]];
    forall e: Node
      ensures Get(wire', e) == Stream(Get(groups', e))
      ensures Flatten(Get(groups', e)) + Get(pending - {d}, e) == For(e, accepted)
      ensures [] !in Get(groups', e) && (e in pending - {d} ==> (pending - {d})[e] != [])
    {
      assert Get(wire, e) == Stream(Get(groups, e));
      assert Flatten(Get(groups, e)) + Get(pending, e) == For(e, accepted);
      assert e != d ==> Get(wire', e) == Get(wire, e) && Get(groups', e) == Get(groups, e)
                        && Get(pending - {d}, e) == Get(pending, e);
    }
  }

  class ObGateway {
    var pendingMsgs: map<Node, seq<Msg>>
    /** What has been written to the socket of each node. */
    var wire: map<Node, seq<Byte>>
    ghost var groups: map<Node, seq<seq<Msg>>>
    ghost var accepted: seq<Item>
    const serstrsmall: array<Byte>

    ghost predicate Valid()
      reads this
    {
      serstrsmall.Length == SERIALIZEDMAXSIZE && Faithful(wire, groups, pendingMsgs, accepted)
    }

    constructor ()
      ensures Valid() && accepted == [] && pendingMsgs == map[] && wire == map[]
      ensures fresh(serstrsmall)
    {
      pendingMsgs := map[];
      wire := map[];
      groups := map[];
      accepted := [];
      serstrsmall := new Byte[SERIALIZEDMAXSIZE];
    }

    /** One TOPIC_BATCHSERIALIZED message: each entry is queued for its node. */
    method Receive(batch: seq<Item>)
      requires Valid()
      modifies this`pendingMsgs, this`accepted
      ensures Valid() && accepted == old(accepted) + batch
    {
      var n := 0;
      while n < |batch|
        invariant n <= |batch|
        invariant Valid() && accepted == old(accepted) + batch[..n]
      {
        Push(batch[n]);
        assert batch[..n + 1] == batch[..n] + [batch[n]];
        n := n + 1;
      }
      assert batch[..n] == batch;
    }

    /** Also what one TOPIC_SERIALIZED message does. */
    method Push(item: Item)
      requires Valid()
      modifies this`pendingMsgs, this`accepted
      ensures Valid() && accepted == old(accepted) + [item]
    {
      PushFaithful(wire, groups, pendingMsgs, accepted, item);
      pendingMsgs := pendingMsgs[item.node := Get(pendingMsgs, item.node) + [item.msg]];
      accepted := accepted + [item];
    }

    /** The size of a group: its own header, then a header and a text for each message. */
    method GroupSize(ms: seq<Msg>) returns (s: nat)
      ensures s == |Frame(ms)|
    {
      s := 8;
      var n := 0;
      while n < |ms|
        invariant n <= |ms|
        invariant s == 8 + |Body(ms[..n])|
      {
        assert ms[..n + 1] == ms[..n] + [ms[n]];
        BodySnoc(ms[..n], ms[n]);
        s := s + 8 + |ms[n]|;
        n := n + 1;
      }
      assert ms[..n] == ms;
    }

    /** One message is written behind what the buffer already holds. */
    method Append(serstr: array<Byte>, pos: nat, m: Msg) returns (newpos: nat)
      requires pos + 8 + |m| <= serstr.Length
      modifies serstr
      ensures newpos == pos + 8 + |m|
      ensures serstr[..newpos] == old(serstr[..pos]) + (Size(|m|) + m)
    {
      MemCpy(serstr, pos, Size(|m|));
      MemCpy(serstr, pos + 8, m);
      newpos := pos + 8 + |m|;
    }

    /** The text of one group, built in place in a buffer of known size. */
    method Serialize(ms: seq<Msg>) returns (sendstr: array<Byte>, sendsize: nat)
      requires serstrsmall.Length == SERIALIZEDMAXSIZE
      modifies serstrsmall
      ensures sendsize <= sendstr.Length && sendstr[..sendsize] == Frame(ms)
    {
      var s := GroupSize(ms);
      var serstr := serstrsmall;
      if s > SERIALIZEDMAXSIZE {
        serstr := new Byte[s];
      }
      MemCpy(serstr, 0, Size(s));
      var pos: nat := 8;
      var n := 0;
      assert ms[0..] == ms;
      while n < |ms|
        invariant n <= |ms| && pos <= s <= serstr.Length
        invariant pos + |Body(ms[n..])| == s
        invariant serstr[..pos] == Size(s) + Body(ms[..n])
      {
        BodyStep(ms, n);
        Assoc(Size(s), Body(ms[..n]), Size(|ms[n]|) + ms[n]);
        pos := Append(serstr, pos, ms[n]);
        n := n + 1;
      }
      assert ms[..n] == ms && ms[n..] == [];
      return serstr, s;
    }

    /** Any key that is left: the order of an unordered map. */
    static method SomeKey(m: map<Node, seq<Msg>>) returns (d: Node)
      requires m != map[]
      ensures d in m
    {
      assert (forall e: Node :: e !in m) ==> m == map[];
      d :| d in m;
    }

    /** Every pending list goes out as one group and is erased. */
    method SendAll()
      requires Valid()
      modifies this`pendingMsgs, this`wire, this`groups, serstrsmall
      ensures Valid() && accepted == old(accepted) && pendingMsgs == map[]
      ensures SentFrom(old(groups), old(pendingMsgs), groups, pendingMsgs)
    {
      ghost var groups0, pending0 := groups, pendingMsgs;
      while pendingMsgs != map[]
        invariant Valid() && accepted == old(accepted)
        invariant SentFrom(groups0, pending0, groups, pendingMsgs)
        decreases |pendingMsgs|
      {
        var d := SomeKey(pendingMsgs);
        SentOne(groups0, pending0, groups, pendingMsgs, d);
        SendTo(d);
      }
    }

    method SendTo(d: Node)
      requires Valid() && d in pendingMsgs
      modifies this`pendingMsgs, this`wire, this`groups, serstrsmall
      ensures Valid() && pendingMsgs == old(pendingMsgs) - {d}
      ensures groups == old(groups)[d := old(Get(groups, d)) + [old(pendingMsgs)[d]]]
    {
      var ms := pendingMsgs[d];
      var sendstr, sendsize := Serialize(ms);
      SendFaithful(wire, groups, pendingMsgs, accepted, d);
      wire := wire[d := Get(wire, d) + sendstr[..sendsize]];
      groups := groups[d := Get(groups, d) + [ms]];
      pendingMsgs := pendingMsgs - {d};
    }
  }

  // ----- the gateway's round -----

  const ROUND: nat := 5000

  /** One round of the gateway: at most so many batches are received, then everything pending is sent. */
  method Round(mbox: Slot, gw: ObGateway)
    requires gw.Valid() && gw.accepted == Strip(Entries(mbox.taken))
    modifies mbox, gw`pendingMsgs, gw`accepted, gw`wire, gw`groups, gw.serstrsmall
    ensures gw.Valid() && gw.accepted == Strip(Entries(mbox.taken))
    ensures mbox.taken + mbox.posts == old(mbox.taken) + old(mbox.posts) && mbox.posts == if |old(mbox.posts)| <= ROUND then [] else old(mbox.posts)[ROUND..]
    ensures gw.pendingMsgs == map[]
  {
    ReceiveBatches(mbox, gw);
    ghost var accepted := gw.accepted;
    gw.SendAll();
    assert gw.accepted == accepted;
  }

  method ReceiveBatches(mbox: Slot, gw: ObGateway)
    requires gw.Valid() && gw.accepted == Strip(Entries(mbox.taken))
    modifies mbox, gw`pendingMsgs, gw`accepted
    ensures gw.Valid() && gw.accepted == Strip(Entries(mbox.taken))
    ensures mbox.taken + mbox.posts == old(mbox.taken) + old(mbox.posts) && mbox.posts == if |old(mbox.posts)| <= ROUND then [] else old(mbox.posts)[ROUND..]
  {
    var inmsg := 0;
    while inmsg < ROUND
      invariant inmsg <= ROUND && mbox.posts == if |old(mbox.posts)| <= inmsg then [] else old(mbox.posts)[inmsg..]
      invariant mbox.taken + mbox.posts == old(mbox.taken) + old(mbox.posts)
      invariant gw.Valid() && gw.accepted == Strip(Entries(mbox.taken))
    {
      var received := ReceiveOne(mbox, gw);
      if !received {
        break;
      }
      inmsg := inmsg + 1;
    }
  }

  method ReceiveOne(mbox: Slot, gw: ObGateway) returns (received: bool)
    requires gw.Valid() && gw.accepted == Strip(Entries(mbox.taken))
    modifies mbox, gw`pendingMsgs, gw`accepted
    ensures gw.Valid() && gw.accepted == Strip(Entries(mbox.taken))
    ensures mbox.taken + mbox.posts == old(mbox.taken) + old(mbox.posts)
    ensures received == (old(mbox.posts) != [])
    ensures mbox.posts == if received then old(mbox.posts)[1..] else []
  {
    ghost var taken := mbox.taken;
    var post := mbox.Receive();
    if post.None? {
      return false;
    }
    EntriesSnoc(taken, post.value);
    gw.Receive(post.value.batch);
    return true;
  }

  // ----- any number of producers and the gateway -----

  /** A message and the producer that accepted it. */
  datatype Entry = Entry(src: Pid, item: Item)

  function Marked(src: Pid, items: seq<Item>): seq<Entry> {
    if items == [] then [] else Marked(src, items[..|items| - 1]) + [Entry(src, items[|items| - 1])]
  }

  function Entries(posts: seq<Post>): seq<Entry> {
    if posts == [] then []
    else Entries(posts[..|posts| - 1]) + Marked(posts[|posts| - 1].src, posts[|posts| - 1].batch)
  }

  function Strip(es: seq<Entry>): seq<Item> {
    if es == [] then [] else Strip(es[..|es| - 1]) + [es[|es| - 1].item]
  }

  /** What one producer contributed, in order. */
  function By(p: Pid, es: seq<Entry>): seq<Item> {
    if es == [] then [] else By(p, es[..|es| - 1]) + if es[|es| - 1].src == p then [es[|es| - 1].item] else []
  }

  /** What is for one node, in order. */
  function Bound(d: Node, es: seq<Entry>): seq<Entry> {
    if es == [] then [] else Bound(d, es[..|es| - 1]) + if es[|es| - 1].item.node == d then [es[|es| - 1]] else []
  }

  lemma {:induction false} StripAppend(a: seq<Entry>, b: seq<Entry>)
    ensures Strip(a + b) == Strip(a) + Strip(b)
    decreases |b|
  {
    if b == [] {
      assert a + b == a;
    } else {
      assert (a + b)[..|a + b| - 1] == a + b[..|b| - 1];
      StripAppend(a, b[..|b| - 1]);
    }
  }

  lemma {:induction false} ByAppend(p: Pid, a: seq<Entry>, b: seq<Entry>)
    ensures By(p, a + b) == By(p, a) + By(p, b)
    decreases |b|
  {
    if b == [] {
      assert a + b == a;
    } else {
      var init, one := b[..|b| - 1], if b[|b| - 1].src == p then [b[|b| - 1].item] else [];
      assert (a + b)[..|a + b| - 1] == a + init;
      ByAppend(p, a, init);
      Assoc(By(p, a), By(p, init), one);
    }
  }

  lemma {:induction false} MarkedIs(src: Pid, items: seq<Item>, p: Pid)
    ensures Strip(Marked(src, items)) == items
    ensures By(p, Marked(src, items)) == if src == p then items else []
  {
    if items != [] {
      var init, last := items[..|items| - 1], items[|items| - 1];
      MarkedIs(src, init, p);
      assert (Marked(src, init) + [Entry(src, last)])[..|Marked(src, init)|] == Marked(src, init);
      assert init + [last] == items;
    }
  }

  lemma EntriesSnoc(posts: seq<Post>, post: Post)
    ensures Entries(posts + [post]) == Entries(posts) + Marked(post.src, post.batch)
    ensures Strip(Entries(posts + [post])) == Strip(Entries(posts)) + post.batch
    ensures forall p :: By(p, Entries(posts + [post])) == By(p, Entries(posts)) + if post.src == p then post.batch else []
  {
    assert (posts + [post])[..|posts|] == posts;
    StripAppend(Entries(posts), Marked(post.src, post.batch));
    MarkedIs(post.src, post.batch, post.src);
    forall p ensures By(p, Entries(posts + [post])) == By(p, Entries(posts)) + if post.src == p then post.batch else [] {
      ByAppend(p, Entries(posts), Marked(post.src, post.batch));
      MarkedIs(post.src, post.batch, p);
    }
  }

  /** All producers and the mailbox: what each has waiting and has accepted, what is in the mailbox, what was received. */
  datatype Net = Net(waiting: map<Pid, seq<Item>>, accepted: map<Pid, seq<Item>>, posts: seq<Post>, taken: seq<Post>)

  datatype NetEvent = Send(src: Pid, item: Item) | Flush(src: Pid) | Take

  function HandOn(n: Net, src: Pid, h: Handed): Net {
    n.(waiting := n.waiting[src := h.waiting], posts := n.posts + Posts(src, h.batches))
  }

  function NetStep(n: Net, e: NetEvent): Net {
    match e
    case Send(p, item) =>
      HandOn(n, p, AfterSend(Get(n.waiting, p), item)).(accepted := n.accepted[p := Get(n.accepted, p) + [item]])
    case Flush(p) => HandOn(n, p, AfterFlush(Get(n.waiting, p)))
    case Take => if n.posts == [] then n else n.(posts := n.posts[1..], taken := n.taken + [n.posts[0]])
  }

  function NetRun(n: Net, run: seq<NetEvent>): Net {
    if run == [] then n else NetStep(NetRun(n, run[..|run| - 1]), run[|run| - 1])
  }

  const IDLE := Net(map[], map[], [], [])

  /** Each producer's messages are, in order, received by the gateway, in the mailbox, or waiting. */
  ghost predicate Joined(n: Net) {
    forall p :: JoinedAt(n, p)
  }

  predicate JoinedAt(n: Net, p: Pid) {
    && Get(n.accepted, p) == By(p, Entries(n.taken + n.posts)) + Get(n.waiting, p)
    && |Get(n.waiting, p)| < OBGWMSGBATCHSIZE
  }

  lemma PostsOne(src: Pid, batch: seq<Item>)
    ensures Posts(src, [batch]) == [Post(src, batch)]
  {
    assert [batch][..0] == [];
  }

  /** Nobody else's messages, and nothing received or accepted, are touched when `src` does something to its batch. */
  predicate OnlyBatch(n: Net, n': Net, src: Pid) {
    n'.taken == n.taken && n'.waiting - {src} == n.waiting - {src} && n'.accepted - {src} == n.accepted - {src}
  }

  /** A send completes the batch at 5000 messages and then hands it over; until then the message waits. */
  lemma SendWaitsOrFills(n: Net, src: Pid, item: Item)
    ensures var n' := NetStep(n, Send(src, item));
      && OnlyBatch(n, n', src) && Get(n'.accepted, src) == Get(n.accepted, src) + [item]
      && if |Get(n.waiting, src)| + 1 == 5000
         then Get(n'.waiting, src) == [] && n'.posts == n.posts + [Post(src, Get(n.waiting, src) + [item])]
         else Get(n'.waiting, src) == Get(n.waiting, src) + [item] && n'.posts == n.posts
  {
    PostsOne(src, Get(n.waiting, src) + [item]);
  }

  /** After a flush nothing waits: what did is the last batch in the mailbox. */
  lemma FlushHandsOver(n: Net, src: Pid)
    ensures var n' := NetStep(n, Flush(src));
      && OnlyBatch(n, n', src) && n'.accepted == n.accepted && Get(n'.waiting, src) == []
      && n'.posts == n.posts + if Get(n.waiting, src) == [] then [] else [Post(src, Get(n.waiting, src))]
  {
    PostsOne(src, Get(n.waiting, src));
  }

  function Takes(n: nat): seq<NetEvent> {
    if n == 0 then [] else Takes(n - 1) + [Take]
  }

  /** As many receives as there are batches empty the mailbox, in order. */
  lemma {:induction false} TakesReceive(n: Net, k: nat)
    requires k <= |n.posts|
    ensures NetRun(n, Takes(k)) == n.(posts := n.posts[k..], taken := n.taken + n.posts[..k])
  {
    if k > 0 {
      TakesReceive(n, k - 1);
      assert Takes(k)[..|Takes(k)| - 1] == Takes(k - 1);
      assert n.posts[..k] == n.posts[..k - 1] + [n.posts[k - 1]];
      Assoc(n.taken, n.posts[..k - 1], [n.posts[k - 1]]);
    } else {
      assert n.taken + n.posts[..0] == n.taken && n.posts[0..] == n.posts;
    }
  }

  /** What a hand-over puts behind the messages of each producer. */
  lemma LogGrows(log: seq<Post>, src: Pid, batches: seq<seq<Item>>, p: Pid)
    requires |batches| <= 1
    ensures By(p, Entries(log + Posts(src, batches))) ==
            By(p, Entries(log)) + if p == src && batches != [] then batches[0] else []
  {
    if batches == [] {
      assert log + Posts(src, batches) == log;
    } else {
      assert batches == [batches[0]];
      PostsOne(src, batches[0]);
      EntriesSnoc(log, Post(src, batches[0]));
    }
  }

  lemma Regroup<T>(a: seq<T>, w: seq<T>, more: seq<T>, batch: seq<T>, w': seq<T>)
    requires w + more == batch + w'
    ensures (a + w) + more == (a + batch) + w'
  {
    Assoc(a, w, more);
    Assoc(a, batch, w');
  }

  function Batched(h: Handed): seq<Item> {
    if h.batches == [] then [] else h.batches[0]
  }

  /** Handing on moves messages from what waits into the mailbox, behind those already there. */
  lemma HandOnKeeps(n: Net, src: Pid, h: Handed, more: seq<Item>, p: Pid)
    requires |h.batches| <= 1 && |h.waiting| < OBGWMSGBATCHSIZE
    requires Get(n.waiting, src) + more == Batched(h) + h.waiting
    requires JoinedAt(n, p)
    ensures JoinedAt(HandOn(n, src, h).(accepted := n.accepted[src := Get(n.accepted, src) + more]), p)
  {
    var log, log' := n.taken + n.posts, n.taken + (n.posts + Posts(src, h.batches));
    Assoc(n.taken, n.posts, Posts(src, h.batches));
    LogGrows(log, src, h.batches, p);
    if p == src {
      Regroup(By(p, Entries(log)), Get(n.waiting, p), more, Batched(h), h.waiting);
      assert By(p, Entries(log')) == By(p, Entries(log)) + Batched(h);
    } else {
      assert By(p, Entries(log')) == By(p, Entries(log)) + [] == By(p, Entries(log));
    }
  }

  lemma StepJoined(n: Net, e: NetEvent)
    requires Joined(n)
    ensures Joined(NetStep(n, e))
  {
    match e
    case Send(src, item) =>
      assert JoinedAt(n, src);
      assert Get(n.waiting, src) + [item] + [] == Get(n.waiting, src) + [item];
      forall p ensures JoinedAt(NetStep(n, e), p) {
        assert JoinedAt(n, p);
        HandOnKeeps(n, src, AfterSend(Get(n.waiting, src), item), [item], p);
      }
    case Flush(src) =>
      forall p ensures JoinedAt(NetStep(n, e), p) {
        assert JoinedAt(n, p);
        FlushKeeps(n, src, p);
      }
    case Take =>
      assert n.posts != [] ==> (n.taken + [n.posts[0]]) + n.posts[1..] == n.taken + n.posts;
      forall p ensures JoinedAt(NetStep(n, e), p) {
        assert JoinedAt(n, p);
      }
  }

  lemma FlushKeeps(n: Net, src: Pid, p: Pid)
    requires JoinedAt(n, p)
    ensures JoinedAt(HandOn(n, src, AfterFlush(Get(n.waiting, src))), p)
  {
    var h := AfterFlush(Get(n.waiting, src));
    assert Get(n.waiting, src) + [] == Get(n.waiting, src);
    assert Get(n.accepted, src) + [] == Get(n.accepted, src);
    HandOnKeeps(n, src, h, [], p);
  }

  lemma {:induction false} RunJoined(run: seq<NetEvent>)
    ensures Joined(NetRun(IDLE, run))
  {
    if run != [] {
      RunJoined(run[..|run| - 1]);
      StepJoined(NetRun(IDLE, run[..|run| - 1]), run[|run| - 1]);
    } else {
      forall p ensures JoinedAt(IDLE, p) {}
    }
  }

  /** The entries bound for a node keep, overall and producer by producer, what was accepted for it. */
  lemma {:induction false} BoundIs(d: Node, es: seq<Entry>, p: Pid)
    ensures For(d, Strip(Bound(d, es))) == For(d, Strip(es))
    ensures For(d, By(p, Bound(d, es))) == For(d, By(p, es))
  {
    if es != [] {
      var init, last := es[..|es| - 1], es[|es| - 1];
      var one := if last.item.node == d then [last] else [];
      BoundIs(d, init, p);
      OneEntry(last, p);
      StripAppend(Bound(d, init), one);
      ByAppend(p, Bound(d, init), one);
      ForAppend(d, Strip(Bound(d, init)), Strip(one));
      ForAppend(d, By(p, Bound(d, init)), By(p, one));
      ForAppend(d, Strip(init), [last.item]);
      ForAppend(d, By(p, init), if last.src == p then [last.item] else []);
      NotFor(d, last.item);
    }
  }

  lemma OneEntry(e: Entry, p: Pid)
    ensures Strip([e]) == [e.item] && By(p, [e]) == if e.src == p then [e.item] else []
  {
    assert [e][..0] == [];
  }

  lemma NotFor(d: Node, i: Item)
    ensures i.node != d ==> For(d, [i]) == []
  {
    assert [i][1..] == [];
  }

  /**
   * After any run of any number of producers: what the gateway has sent to a node or
   * keeps for it is a merge of what it has received from them, and of each producer
   * that is, in order, what it accepted for the node less what is still in the mailbox
   * or waits.
   */
  lemma AcceptedIsSomewhere(run: seq<NetEvent>, gw: ObGateway, d: Node, p: Pid)
    requires gw.Valid() && gw.accepted == Strip(Entries(NetRun(IDLE, run).taken))
    ensures var n := NetRun(IDLE, run);
      var merged := Bound(d, Entries(n.taken));
      && Get(gw.wire, d) == Stream(Get(gw.groups, d))
      && Flatten(Get(gw.groups, d)) + Get(gw.pendingMsgs, d) == For(d, Strip(merged))
      && For(d, Get(n.accepted, p)) == For(d, By(p, merged)) + For(d, By(p, Entries(n.posts)) + Get(n.waiting, p))
  {
    var n := NetRun(IDLE, run);
    RunJoined(run);
    assert JoinedAt(n, p);
    BoundIs(d, Entries(n.taken), p);
    EntriesAppend(p, n.taken, n.posts);
    Assoc(By(p, Entries(n.taken)), By(p, Entries(n.posts)), Get(n.waiting, p));
    ForAppend(d, By(p, Entries(n.taken)), By(p, Entries(n.posts)) + Get(n.waiting, p));
  }

  lemma {:induction false} EntriesAppend(p: Pid, a: seq<Post>, b: seq<Post>)
    ensures By(p, Entries(a + b)) == By(p, Entries(a)) + By(p, Entries(b))
    decreases |b|
  {
    if b == [] {
      assert a + b == a;
    } else {
      var init, last := b[..|b| - 1], b[|b| - 1];
      assert a + b == (a + init) + [last] && b == init + [last];
      EntriesAppend(p, a, init);
      EntriesSnoc(a + init, last);
      EntriesSnoc(init, last);
      Assoc(By(p, Entries(a)), By(p, Entries(init)), if last.src == p then last.batch else []);
    }
  }

  /** With nothing waiting anywhere, exactly what the producers accepted is on the wire, merged. */
  lemma AllOnTheWire(run: seq<NetEvent>, gw: ObGateway, d: Node, p: Pid)
    requires gw.Valid() && gw.accepted == Strip(Entries(NetRun(IDLE, run).taken)) && gw.pendingMsgs == map[]
    requires NetRun(IDLE, run).posts == [] && Get(NetRun(IDLE, run).waiting, p) == []
    ensures var n := NetRun(IDLE, run);
      var merged := Bound(d, Entries(n.taken));
      && Get(gw.wire, d) == Stream(Get(gw.groups, d)) && Flatten(Get(gw.groups, d)) == For(d, Strip(merged))
      && For(d, By(p, merged)) == For(d, Get(n.accepted, p))
  {
    AcceptedIsSomewhere(run, gw, d, p);
  }
}
