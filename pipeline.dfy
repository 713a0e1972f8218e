/** gstreamer/Pipeline.cpp: the owner of one native pipeline and its bus.
    Every bus message is first given to the synchronous hook onSyncMessage
    on the posting thread; a message it answers DROP is released there and
    then, any other is queued (a Qt queued connection) for handleMessage,
    which calls onMessage on the owner's thread and releases the message.
    Cross-thread delivery is reduced to its order: a FIFO queue. */
module GstPipeline {
  import opened Gst

  /** The messages the sync hook lets through, in posting order. */
  function Passed(ms: seq<Message>, onSync: Message -> BusReply): (r: seq<Message>)
    ensures |r| <= |ms|
  {
    if ms == [] then []
    else Passed(ms[..|ms| - 1], onSync)
         + (if onSync(ms[|ms| - 1]) != Drop then [ms[|ms| - 1]] else [])
  }

  /** The messages the sync hook drops, in posting order. */
  function Dropped(ms: seq<Message>, onSync: Message -> BusReply): (r: seq<Message>)
    ensures |r| <= |ms|
  {
    if ms == [] then []
    else Dropped(ms[..|ms| - 1], onSync)
         + (if onSync(ms[|ms| - 1]) == Drop then [ms[|ms| - 1]] else [])
  }

  lemma PassedAppend(ms: seq<Message>, m: Message, onSync: Message -> BusReply)
    ensures Passed(ms + [m], onSync)
         == Passed(ms, onSync) + (if onSync(m) != Drop then [m] else [])
    ensures Dropped(ms + [m], onSync)
         == Dropped(ms, onSync) + (if onSync(m) == Drop then [m] else [])
  {
    assert (ms + [m])[..|ms|] == ms;
  }

  /** Each posted message takes exactly one of the two paths. */
  lemma {:induction false} PassedDroppedPartition(ms: seq<Message>, onSync: Message -> BusReply)
    ensures multiset(Passed(ms, onSync)) + multiset(Dropped(ms, onSync)) == multiset(ms)
  {
    if ms != [] {
      var init, last := ms[..|ms| - 1], ms[|ms| - 1];
      PassedDroppedPartition(init, onSync);
      assert ms == init + [last];
    }
  }

  /** The messages that pass are exactly those the hook does not drop. */
  lemma {:induction false} PassedMembers(ms: seq<Message>, onSync: Message -> BusReply, m: Message)
    ensures m in Passed(ms, onSync) <==> m in ms && onSync(m) != Drop
    ensures m in Dropped(ms, onSync) <==> m in ms && onSync(m) == Drop
  {
    if ms != [] {
      var init, last := ms[..|ms| - 1], ms[|ms| - 1];
      PassedMembers(init, onSync, m);
      assert ms == init + [last];
    }
  }

  /** The default onSyncMessage: every message is left to the async path. */
  function DefaultOnSync(m: Message): (r: BusReply)
    ensures r != Drop
  {
    Pass
  }

  /** With the default hook every message is delivered, in posting order. */
  lemma {:induction false} DefaultDeliversAll(ms: seq<Message>)
    ensures Passed(ms, DefaultOnSync) == ms
    ensures Dropped(ms, DefaultOnSync) == []
  {
    if ms != [] {
      DefaultDeliversAll(ms[..|ms| - 1]);
      assert ms == ms[..|ms| - 1] + [ms[|ms| - 1]];
    }
  }

  /** The routing invariant: delivered-then-pending is the passing part of
      what was posted, in order; each released message was dropped or
      delivered; every posted message is released or still pending. */
  ghost predicate Routed(posted: seq<Message>, delivered: seq<Message>, pending: seq<Message>,
                         released: seq<Message>, onSync: Message -> BusReply)
  {
    && delivered + pending == Passed(posted, onSync)
    && multiset(released) == multiset(Dropped(posted, onSync)) + multiset(delivered)
    && multiset(released) + multiset(pending) == multiset(posted)
  }

  /** The sync handler keeps the routing invariant. */
  lemma SyncStep(posted: seq<Message>, delivered: seq<Message>, pending: seq<Message>,
                 released: seq<Message>, onSync: Message -> BusReply, msg: Message)
    requires Routed(posted, delivered, pending, released, onSync)
    ensures Routed(posted + [msg], delivered,
                   pending + (if onSync(msg) == Drop then [] else [msg]),
                   released + (if onSync(msg) == Drop then [msg] else []), onSync)
  {
    if onSync(msg) == Drop {
      SyncDropStep(posted, delivered, pending, released, onSync, msg);
      assert pending + [] == pending;
    } else {
      SyncPassStep(posted, delivered, pending, released, onSync, msg);
      assert released + [] == released;
    }
  }

  lemma SyncDropStep(posted: seq<Message>, delivered: seq<Message>, pending: seq<Message>,
                     released: seq<Message>, onSync: Message -> BusReply, msg: Message)
    requires Routed(posted, delivered, pending, released, onSync) && onSync(msg) == Drop
    ensures Routed(posted + [msg], delivered, pending, released + [msg], onSync)
  {
    PassedAppend(posted, msg, onSync);
    assert Passed(posted + [msg], onSync) == Passed(posted, onSync) by {
      assert Passed(posted, onSync) + [] == Passed(posted, onSync);
    }
    var dropped := Dropped(posted, onSync);
    assert multiset(Dropped(posted + [msg], onSync)) == multiset(dropped) + multiset{msg};
    assert multiset(released + [msg]) == multiset(released) + multiset{msg};
    assert multiset(posted + [msg]) == multiset(posted) + multiset{msg};
    AddToFirst(multiset(released), multiset(dropped), multiset(delivered), msg);
    AddToFirst(multiset(posted), multiset(released), multiset(pending), msg);
  }

  /** Adding one element to the first part of a split multiset. */
  lemma AddToFirst<T>(whole: multiset<T>, a: multiset<T>, b: multiset<T>, x: T)
    requires whole == a + b
    ensures whole + multiset{x} == (a + multiset{x}) + b
  {
  }

  lemma SyncPassStep(posted: seq<Message>, delivered: seq<Message>, pending: seq<Message>,
                     released: seq<Message>, onSync: Message -> BusReply, msg: Message)
    requires Routed(posted, delivered, pending, released, onSync) && onSync(msg) != Drop
    ensures Routed(posted + [msg], delivered, pending + [msg], released, onSync)
  {
    PassedAppend(posted, msg, onSync);
    assert delivered + (pending + [msg]) == Passed(posted + [msg], onSync) by {
      assert delivered + (pending + [msg]) == (delivered + pending) + [msg];
    }
    assert Dropped(posted + [msg], onSync) == Dropped(posted, onSync) by {
      assert Dropped(posted, onSync) + [] == Dropped(posted, onSync);
    }
    assert multiset(released) + multiset(pending + [msg]) == multiset(posted + [msg]) by {
      assert multiset(pending + [msg]) == multiset(pending) + multiset{msg};
      assert multiset(posted + [msg]) == multiset(posted) + multiset{msg};
    }
  }

  /** handleMessage keeps the routing invariant. */
  lemma HandleStep(posted: seq<Message>, delivered: seq<Message>, pending: seq<Message>,
                   released: seq<Message>, onSync: Message -> BusReply)
    requires Routed(posted, delivered, pending, released, onSync) && pending != []
    ensures Routed(posted, delivered + [pending[0]], pending[1..],
                   released + [pending[0]], onSync)
  {
    assert delivered + pending == (delivered + [pending[0]]) + pending[1..];
    assert pending == [pending[0]] + pending[1..];
  }

  class Pipeline {
    /** d_pipeline, identified by its object identity. */
    const id: ObjectId
    /** The subclass's onSyncMessage. */
    const onSync: Message -> BusReply
    /** The last state requested of d_pipeline. */
    var state: State
    /** handleMessage invocations queued on the owner's loop. */
    var pending: seq<Message>
    /** onMessage calls, in order. */
    var delivered: seq<Message>
    /** gst_message_unref calls, in order. */
    var released: seq<Message>
    /** Every message the bus handed to the sync handler, in order. */
    ghost var posted: seq<Message>

    ghost predicate Valid()
      reads this
    {
      Routed(posted, delivered, pending, released, onSync)
    }

    constructor Init(id: ObjectId, onSync: Message -> BusReply)
      ensures Valid() && this.id == id && this.onSync == onSync
      ensures state == Null && pending == [] && delivered == [] && released == []
      ensures posted == []
    {
      this.id, this.onSync := id, onSync;
      state := Null;
      pending, delivered, released := [], [], [];
      posted := [];
    }

    /** The construction of a Pipeline: it throws when gst_pipeline_new
        returns null (`created` is false). */
    static method Create(id: ObjectId, onSync: Message -> BusReply, created: bool)
      returns (r: Construction)
      ensures r.Thrown? <==> !created
      ensures r.Thrown? ==> r.what == "could not set pipeline"
      ensures r.Built? ==> fresh(r.pipeline) && r.pipeline.Valid()
                           && r.pipeline.onSync == onSync && r.pipeline.id == id
                           && r.pipeline.posted == [] && r.pipeline.pending == []
    {
      if !created {
        return Thrown("could not set pipeline");
      }
      var p := new Pipeline.Init(id, onSync);
      return Built(p);
    }

    /** onBusSyncMessageCb: a message the hook drops is released at once;
        any other is queued for handleMessage. The bus is always told DROP. */
    method OnBusSyncMessage(msg: Message) returns (reply: BusReply)
      requires Valid()
      modifies this
      ensures Valid() && reply == Drop
      ensures posted == old(posted) + [msg]
      ensures released == old(released) + (if onSync(msg) == Drop then [msg] else [])
      ensures pending == old(pending) + (if onSync(msg) == Drop then [] else [msg])
      ensures delivered == old(delivered) && state == old(state)
    {
      SyncStep(posted, delivered, pending, released, onSync, msg);
      posted := posted + [msg];
      if onSync(msg) == Drop {
        released := released + [msg];
      } else {
        pending := pending + [msg];
      }
      reply := Drop;
    }

    /** handleMessage: the owner's loop runs the oldest queued invocation,
        which calls onMessage once and releases the message. */
    method HandleMessage() returns (msg: Message)
      requires Valid() && pending != []
      modifies this
      ensures Valid()
      ensures msg == old(pending)[0] && pending == old(pending)[1..]
      ensures delivered == old(delivered) + [msg] && released == old(released) + [msg]
      ensures posted == old(posted) && state == old(state)
    {
      HandleStep(posted, delivered, pending, released, onSync);
      msg := pending[0];
      pending := pending[1..];
      delivered := delivered + [msg];
      released := released + [msg];
    }

    /** ~Pipeline: the native pipeline is set to NULL. */
    method Destroy()
      modifies this`state
      ensures state == Null
    {
      state := Null;
    }
  }

  /** A Pipeline, or the exception its construction threw. */
  datatype Construction = Built(pipeline: Pipeline) | Thrown(what: string)

  /** Once nothing is queued, every posted message has been released
      exactly once and the delivered ones are the passing ones, in order. */
  lemma DrainedReleasesAll(p: Pipeline)
    requires p.Valid() && p.pending == []
    ensures multiset(p.released) == multiset(p.posted)
    ensures p.delivered == Passed(p.posted, p.onSync)
  {
    assert p.delivered + [] == p.delivered;
  }

  /** A hook that drops: the message is released and never delivered. */
  method DroppedNeverDelivered(m: Message) returns (delivered: seq<Message>, released: seq<Message>)
    ensures delivered == [] && released == [m]
  {
    var p := new Pipeline.Init(0, (_: Message) => Drop);
    var reply := p.OnBusSyncMessage(m);
    delivered, released := p.delivered, p.released;
  }

  /** A hook that passes: the message is delivered once, then released. */
  method PassedDeliveredOnce(m: Message) returns (delivered: seq<Message>, released: seq<Message>)
    ensures delivered == [m] && released == [m]
  {
    var p := new Pipeline.Init(0, DefaultOnSync);
    var reply := p.OnBusSyncMessage(m);
    var got := p.HandleMessage();
    delivered, released := p.delivered, p.released;
  }
}
