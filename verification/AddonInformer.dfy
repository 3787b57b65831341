/** The addon informer: its update filter, its work queue and the worker that drains it. */
module AddonInformer {
  import opened Prelude
  import opened Hub

  // --- The work queue, by the published contract of the client-go library

  // A key is dirty from when it is added until it is taken, and processing from when it is
  // taken until it is done; `order` holds the dirty keys that may be taken, once each.
  datatype Queue = Queue(order: seq<string>, dirty: set<string>, processing: set<string>) {
    ghost predicate Valid() {
      && Distinct(order)
      && (forall k :: k in order <==> k in dirty && k !in processing)
    }

    // Adding coalesces: a dirty key is added once, and one being processed waits until it is done.
    function Add(key: string): Queue {
      if key in dirty then this
      else Queue(if key in processing then order else order + [key], dirty + {key}, processing)
    }

    function Take(): Queue
      requires order != []
    {
      Queue(order[1..], dirty - {order[0]}, processing + {order[0]})
    }

    function Done(key: string): Queue {
      Queue(if key in dirty && key in processing then order + [key] else order, dirty, processing - {key})
    }
  }

  lemma AddKeepsValid(q: Queue, key: string)
    requires q.Valid()
    ensures q.Add(key).Valid() && q.Add(key).dirty == q.dirty + {key}
  {
    assert forall k :: k in q.order + [key] <==> k in q.order || k == key;
  }

  lemma TakeKeepsValid(q: Queue)
    requires q.Valid() && q.order != []
    ensures q.Take().Valid() && q.order[0] in q.dirty && q.order[0] !in q.processing
  {
    assert q.order[0] in q.order;
    forall k ensures k in q.order[1..] <==> k in q.Take().dirty && k !in q.Take().processing {
      assert k in q.order <==> k == q.order[0] || k in q.order[1..];
      if k in q.order[1..] {
        var i :| 0 <= i < |q.order[1..]| && q.order[1..][i] == k;
        assert q.order[0] != q.order[i + 1];
      }
    }
  }

  lemma DoneKeepsValid(q: Queue, key: string)
    requires q.Valid()
    ensures q.Done(key).Valid()
  {
    assert forall k :: k in q.order + [key] <==> k in q.order || k == key;
  }

  function AddAll(q: Queue, keys: seq<string>): Queue
    decreases keys
  {
    if keys == [] then q else AddAll(q.Add(keys[0]), keys[1..])
  }

  lemma {:induction false} AddAllKeepsValid(q: Queue, keys: seq<string>)
    requires q.Valid()
    ensures AddAll(q, keys).Valid() && AddAll(q, keys).processing == q.processing
    ensures forall k :: k in AddAll(q, keys).dirty <==> k in q.dirty || k in keys
    decreases keys
  {
    hide Queue.Valid;
    if keys != [] {
      AddKeepsValid(q, keys[0]);
      AddAllKeepsValid(q.Add(keys[0]), keys[1..]);
      assert keys == [keys[0]] + keys[1..];
    }
  }

  // --- The informer

  // The only addon fields the compiler reads.
  predicate SameFields(a: Addon, b: Addon) {
    a.statusNamespace == b.statusNamespace && a.installNamespace == b.installNamespace
  }

  function AddonKey(namespace: string): string {
    namespace + "/" + ADDON_NAME
  }

  lemma AddonKeyInjective(a: string, b: string)
    ensures AddonKey(a) == AddonKey(b) <==> a == b
  {
    assert AddonKey(a)[..|a|] == a && AddonKey(b)[..|b|] == b;
    assert |AddonKey(a)| - |a| == |AddonKey(b)| - |b|;
  }

  function Slashes(key: string): nat {
    if key == "" then 0 else (if key[0] == '/' then 1 else 0) + Slashes(key[1..])
  }

  // One addon of the indexer, with the namespace it lives in.
  datatype Indexed = Indexed(namespace: string, addon: Addon)

  // What handling a key comes to: the event handler is called with the addon the indexer
  // holds at that moment, if the key is well formed and the addon is still there.
  function Handled(indexer: map<string, Indexed>, key: string): seq<Indexed> {
    if Slashes(key) <= 1 && key in indexer then [indexer[key]] else []
  }

  lemma {:induction false} NoSlash(key: string)
    ensures Slashes(key) == 0 <==> forall i :: 0 <= i < |key| ==> key[i] != '/'
  {
    if key != "" {
      NoSlash(key[1..]);
      assert forall i :: 1 <= i < |key| ==> key[i] == key[1..][i - 1];
    }
  }

  lemma {:induction false} TwoSlashes(key: string)
    ensures Slashes(key) > 1 <==> exists i, j :: 0 <= i < j < |key| && key[i] == '/' && key[j] == '/'
  {
    if key != "" {
      var rest := key[1..];
      TwoSlashes(rest);
      NoSlash(rest);
      assert forall i :: 1 <= i < |key| ==> key[i] == rest[i - 1];
      if i, j :| 0 <= i < j < |rest| && rest[i] == '/' && rest[j] == '/' {
        assert key[i + 1] == '/' && key[j + 1] == '/';
      }
      if i, j :| 0 <= i < j < |key| && key[i] == '/' && key[j] == '/' {
        assert rest[j - 1] == '/' && (i > 0 ==> rest[i - 1] == '/');
      }
      if key[0] == '/' && Slashes(rest) > 0 {
        var j :| 0 <= j < |rest| && rest[j] == '/';
        assert key[0] == '/' && key[j + 1] == '/';
      }
    }
  }

  // A key with two slashes is malformed and ignored, and so is one whose addon is gone; any other
  // leads to one call, with what the indexer holds.
  lemma HandledExactly(indexer: map<string, Indexed>, key: string)
    ensures (exists i, j :: 0 <= i < j < |key| && key[i] == '/' && key[j] == '/') || key !in indexer ==>
              Handled(indexer, key) == []
    ensures !(exists i, j :: 0 <= i < j < |key| && key[i] == '/' && key[j] == '/') && key in indexer ==>
              Handled(indexer, key) == [indexer[key]]
  {
    TwoSlashes(key);
  }

  function HandledAll(indexer: map<string, Indexed>, keys: seq<string>): seq<Indexed> {
    if keys == [] then [] else Handled(indexer, keys[0]) + HandledAll(indexer, keys[1..])
  }

  // What others do around one call that takes a key: keys they add before it returns, keys they
  // add while that key is handled, and what the indexer has come to hold by then.
  datatype Round = Round(before: seq<string>, during: seq<string>, indexer: map<string, Indexed>)

  // The queue after one key was taken, handled and marked done, others adding keys meanwhile.
  function Served(q: Queue, during: seq<string>): Queue
    requires q.order != []
  {
    AddAll(q.Take(), during).Done(q.order[0])
  }

  // The queue one round leaves; a call that finds no key waits, and others go on adding.
  function AfterRound(q: Queue, r: Round): Queue {
    var q' := AddAll(q, r.before);
    if q'.order == [] then AddAll(q', r.during) else Served(q', r.during)
  }

  function HandledIn(q: Queue, r: Round): seq<Indexed> {
    var q' := AddAll(q, r.before);
    if q'.order == [] then [] else Handled(r.indexer, q'.order[0])
  }

  // The handler calls of a whole life of the worker: the rounds, then the shutdown, after which
  // what is left is drained.
  function Worked(q: Queue, indexer: map<string, Indexed>, rounds: seq<Round>): seq<Indexed>
    decreases |rounds|
  {
    if rounds == [] then HandledAll(indexer, q.order)
    else HandledIn(q, rounds[0]) + Worked(AfterRound(q, rounds[0]), rounds[0].indexer, rounds[1..])
  }

  // A round handles a dirty key or leaves it dirty, and one that is added while it is handled stays.
  lemma RoundKeepsValid(q: Queue, r: Round)
    requires q.Valid() && q.processing == {}
    ensures AfterRound(q, r).Valid() && AfterRound(q, r).processing == {}
    ensures forall k :: k in r.during ==> k in AfterRound(q, r).dirty
    ensures forall k :: k in q.dirty || k in r.before ==>
              || k in AfterRound(q, r).dirty
              || (AddAll(q, r.before).order != [] && k == AddAll(q, r.before).order[0])
  {
    hide Queue.Valid;
    var q' := AddAll(q, r.before);
    AddAllKeepsValid(q, r.before);
    if q'.order == [] {
      AddAllKeepsValid(q', r.during);
    } else {
      TakeKeepsValid(q');
      AddAllKeepsValid(q'.Take(), r.during);
      DoneKeepsValid(AddAll(q'.Take(), r.during), q'.order[0]);
    }
  }

  // A round makes one call at most, for a key that was dirty or was added before it.
  lemma RoundHandlesOne(q: Queue, r: Round)
    requires q.Valid()
    ensures |HandledIn(q, r)| <= 1
    ensures HandledIn(q, r) != [] ==>
              exists k :: (k in q.dirty || k in r.before) && k in r.indexer && HandledIn(q, r)[0] == r.indexer[k]
  {
    AddAllKeepsValid(q, r.before);
    var q' := AddAll(q, r.before);
    if HandledIn(q, r) != [] {
      assert q'.order[0] in q'.order;
    }
  }

  // What an indexer holds under a key at the moment of some round from here on, or at the end.
  ghost predicate HeldLater(indexer: map<string, Indexed>, rounds: seq<Round>, key: string, value: Indexed) {
    || (key in indexer && indexer[key] == value)
    || (exists i :: 0 <= i < |rounds| && key in rounds[i].indexer && rounds[i].indexer[key] == value)
  }

  predicate AlwaysHeld(indexer: map<string, Indexed>, rounds: seq<Round>, key: string) {
    key in indexer && forall i :: 0 <= i < |rounds| ==> key in rounds[i].indexer
  }

  lemma {:induction false} HandledInAll(indexer: map<string, Indexed>, keys: seq<string>, key: string)
    requires key in keys && Slashes(key) <= 1 && key in indexer
    ensures indexer[key] in HandledAll(indexer, keys)
  {
    if keys[0] != key {
      HandledInAll(indexer, keys[1..], key);
    }
  }

  // No key is lost: a well-formed key that is dirty is handled later, with what the indexer holds
  // then, however many others are added in between.
  lemma {:induction false} DirtyIsHandled(q: Queue, indexer: map<string, Indexed>, rounds: seq<Round>, key: string)
    returns (value: Indexed)
    requires q.Valid() && q.processing == {} && key in q.dirty
    requires Slashes(key) <= 1 && AlwaysHeld(indexer, rounds, key)
    ensures value in Worked(q, indexer, rounds) && HeldLater(indexer, rounds, key, value)
    decreases |rounds|
  {
    if rounds == [] {
      assert key in q.order;
      HandledInAll(indexer, q.order, key);
      value := indexer[key];
    } else {
      var r, q' := rounds[0], AddAll(q, rounds[0].before);
      RoundKeepsValid(q, r);
      if q'.order != [] && q'.order[0] == key {
        value := r.indexer[key];
        assert value in HandledIn(q, r);
      } else {
        hide AddAll, AfterRound, HandledIn;
        assert AlwaysHeld(r.indexer, rounds[1..], key);
        value := DirtyIsHandled(AfterRound(q, r), r.indexer, rounds[1..], key);
        HeldOn(r.indexer, rounds, key, value);
      }
    }
  }

  lemma HeldOn(indexer: map<string, Indexed>, rounds: seq<Round>, key: string, value: Indexed)
    requires rounds != [] && indexer == rounds[0].indexer && HeldLater(indexer, rounds[1..], key, value)
    ensures forall other :: HeldLater(other, rounds, key, value)
  {
    if !(key in indexer && indexer[key] == value) {
      var i :| 0 <= i < |rounds[1..]| && key in rounds[1..][i].indexer && rounds[1..][i].indexer[key] == value;
      assert rounds[i + 1].indexer[key] == value;
    }
  }

  class ManagedClusterAddOnInformer {
    var queue: Queue
    var indexer: map<string, Indexed>
    // The calls made to the event handler, in order.
    var handled: seq<Indexed>
    var shuttingDown: bool

    constructor ()
      ensures queue == Queue([], {}, {}) && indexer == map[] && handled == [] && !shuttingDown
    {
      queue := Queue([], {}, {});
      indexer := map[];
      handled := [];
      shuttingDown := false;
    }

    method EnqueueAddon(namespace: string)
      modifies this`queue
      ensures queue == old(queue).Add(namespace + "/" + ADDON_NAME)
    {
      queue := queue.Add(namespace + "/" + ADDON_NAME);
    }

    // The update handler: enqueue only if one of the two namespace fields changed.
    method OnUpdate(namespace: string, oldAddon: Addon, newAddon: Addon)
      modifies this`queue
      ensures var same := && oldAddon.statusNamespace == newAddon.statusNamespace
                          && oldAddon.installNamespace == newAddon.installNamespace;
              queue == if same then old(queue) else old(queue).Add(AddonKey(namespace))
    {
      if oldAddon.statusNamespace != newAddon.statusNamespace
         || oldAddon.installNamespace != newAddon.installNamespace {
        EnqueueAddon(namespace);
      }
    }

    method SyncHandler(key: string)
      modifies this`handled
      ensures handled == old(handled) + Handled(indexer, key)
    {
      if Slashes(key) > 1 {
        return;
      }
      if key !in indexer {
        return;
      }
      handled := handled + [indexer[key]];
    }

    method AddAllOf(keys: seq<string>)
      modifies this`queue
      ensures queue == AddAll(old(queue), keys)
    {
      for i := 0 to |keys|
        invariant AddAll(queue, keys[i..]) == AddAll(old(queue), keys)
      {
        assert keys[i..][1..] == keys[i + 1..];
        queue := queue.Add(keys[i]);
      }
    }

    // Take one key, handle it, mark it done; others add keys while it is handled. Without a key
    // the call blocks, or reports shutdown.
    method ProcessNextWorkItem(during: seq<string>) returns (more: bool)
      requires queue.order != [] || shuttingDown
      modifies this`queue, this`handled
      ensures more == (old(queue).order != [])
      ensures more ==> queue == Served(old(queue), during)
      ensures more ==> handled == old(handled) + Handled(indexer, old(queue).order[0])
      ensures !more ==> queue == old(queue) && handled == old(handled)
    {
      if queue.order == [] {
        return false;
      }
      var key := queue.order[0];
      queue := queue.Take();
      SyncHandler(key);
      AddAllOf(during);
      queue := queue.Done(key);
      return true;
    }

    // The loop after shutdown: every waiting key is handled once, in order, with what the indexer
    // holds by then.
    method DrainQueue()
      requires shuttingDown && queue.Valid() && queue.processing == {}
      modifies this`queue, this`handled
      ensures queue == Queue([], {}, {})
      ensures handled == old(handled) + HandledAll(indexer, old(queue.order))
    {
      var more := true;
      ghost var keys := queue.order;
      while more
        invariant queue.Valid() && queue.processing == {} && |queue.order| <= |keys|
        invariant !more ==> queue.order == []
        invariant queue.order == keys[|keys| - |queue.order|..]
        invariant handled + HandledAll(indexer, queue.order) == old(handled) + HandledAll(indexer, keys)
        decreases |queue.order|, more
      {
        ghost var before := queue;
        if before.order != [] {
          TakeKeepsValid(before);
          DoneKeepsValid(before.Take(), before.order[0]);
          AppendAssociative(handled, Handled(indexer, before.order[0]), HandledAll(indexer, before.order[1..]));
        }
        more := ProcessNextWorkItem([]);
        assert more ==> queue.order == before.order[1..];
      }
      assert forall k :: k in queue.dirty ==> k in queue.order;
      assert queue.dirty == {};
    }

    // The worker loop, from start to shutdown, with whatever others do around each of its calls.
    method RunWorker(rounds: seq<Round>)
      requires queue.Valid() && queue.processing == {}
      modifies this
      ensures queue == Queue([], {}, {}) && shuttingDown
      ensures handled == old(handled) + Worked(old(queue), old(indexer), rounds)
    {
      hide Queue.Valid, AddAll, Handled, HandledAll;
      assert rounds[0..] == rounds;
      for i := 0 to |rounds|
        invariant queue.Valid() && queue.processing == {}
        invariant handled + Worked(queue, indexer, rounds[i..]) ==
                  old(handled) + Worked(old(queue), old(indexer), rounds)
      {
        ghost var before := queue;
        RoundKeepsValid(before, rounds[i]);
        AppendAssociative(handled, HandledIn(before, rounds[i]),
                          Worked(AfterRound(before, rounds[i]), rounds[i].indexer, rounds[i + 1..]));
        assert rounds[i..][1..] == rounds[i + 1..];
        AddAllOf(rounds[i].before);
        indexer := rounds[i].indexer;
        if queue.order == [] {
          AddAllOf(rounds[i].during);
        } else {
          var _ := ProcessNextWorkItem(rounds[i].during);
        }
      }
      shuttingDown := true;
      DrainQueue();
    }
  }
}
