/** Callers and the heap together: between its own stores a live payload keeps what its owner has stored. */
module HeapClients {
  import opened LinkedLists
  import opened Machine
  import opened HeapModel
  import opened HeapOps
  import opened HeapAlloc
  import opened HeapRuns
  import opened HeapMemory
  import opened HeapPayloads
  import opened KernelHeap

  /** The memory, the heap it represents, and the live payloads with the sizes asked for. */
  datatype World = World(m: Mem, h: Heap, live: map<int, int>)

  /** A call of the heap, or a store by the owner of payload p to the word at x. */
  datatype Event = Call(op: Op) | Put(p: int, x: int, v: int)

  ghost predicate Served(head: int, w: World) {
    Sound(w.h, w.live) && Rep(w.m, head, w.h, {})
  }

  /** The word at x lies in the payload p. */
  predicate Owns(live: map<int, int>, p: int, x: int) {
    p in live && p <= x && x + 4 <= p + live[p]
  }

  /** The chunks a call does not touch. */
  ghost function Kept(h: Heap, op: Op): map<int, int> {
    if op.Free? then Users(h) - {Entry(op.ptr)} else Users(h)
  }

  /** One event. For a call this is what the methods of HeapObject promise. */
  ghost predicate Follows(head: int, w: World, e: Event, w': World) {
    && Served(head, w) && Served(head, w')
    && match e
       case Call(op) => Step(w.h, w.live, op) == Running(w'.h, w'.live) && Keeps(w.m, w'.m, Kept(w.h, op))
       case Put(p, x, v) => Owns(w.live, p, x) && x in w.m && w' == w.(m := w.m[x := v])
  }

  lemma AllocStep(h: Heap, live: map<int, int>, size: int)
    requires Sound(h, live) && !Step(h, live, Alloc(size)).Misused?
    ensures var nb := Request2Size(size);
            && 0 <= size <= TWO32 - 12 && Servable(h, nb) && MIN_CHUNK_SIZE <= nb < TWO32
            && var r := AllocChunk(h, nb);
               Step(h, live, Alloc(size)) == if r.None? then Halted else Running(r.value.0, live[r.value.1 := size])
  {
    hide Inv, AllocChunk;
    RequestFits(size);
  }

  lemma AlignedStep(h: Heap, live: map<int, int>, size: int)
    requires Sound(h, live) && !Step(h, live, AlignedAlloc(size)).Misused?
    ensures var nb := Request2Size(size);
            && 0 <= size <= TWO32 - 12 && MIN_CHUNK_SIZE <= nb <= TWO32 - PAGE_SIZE - 24 && nb % 8 == 0 && Servable(h, PaddedSize(nb))
            && var r := PAllocChunk(h, nb);
               Step(h, live, AlignedAlloc(size)) == if r.None? then Halted else Running(r.value.0, live[r.value.1 := size])
  {
    hide Inv, PAllocChunk;
    RequestFits(size);
  }

  lemma FreeStep(h: Heap, live: map<int, int>, p: int)
    requires Sound(h, live) && !Step(h, live, Free(p)).Misused?
    ensures p != 0 && h.start <= p < h.end ==> InUse(h, Entry(p)) && Shaped(h, {})
    ensures Step(h, live, Free(p)) ==
            if p == 0 then Running(h, live)
            else if !(h.start <= p < h.end) || !InUse(h, Entry(p)) || !Shaped(h, {}) || Release(h, Entry(p)).None? then Halted
            else Running(Release(h, Entry(p)).value, live - {p})
  {
    hide Release;
  }

  /** alloc, palignedAlloc or free; not `ok` is a kernel that stops. */
  method Serve(o: HeapObject, op: Op, junk: int -> int, ghost live: map<int, int>) returns (ok: bool, ghost live': map<int, int>)
    requires o.Valid() && Sound(o.h, live) && !Step(o.h, live, op).Misused?
    modifies o, o.ram
    ensures ok <==> Step(old(o.h), live, op).Running?
    ensures ok ==> o.Valid() && Follows(o.head, World(old(o.ram.w), old(o.h), live), Call(op), World(o.ram.w, o.h, live'))
  {
    hide Inv, Rep, Keeps, Users, Request2Size, AllocChunk, PAllocChunk, Release, Servable, PaddedSize, Sound, Step, Shaped, InUse;
    StepSound(o.h, live, op);
    match op {
      case Alloc(size) =>
        AllocStep(o.h, live, size);
        var r := o.Alloc(size, junk);
        ok := r.Some?;
        live' := if ok then live[r.value := size] else live;
      case AlignedAlloc(size) =>
        AlignedStep(o.h, live, size);
        var r := o.PAlignedAlloc(size, junk);
        ok := r.Some?;
        live' := if ok then live[r.value := size] else live;
      case Free(p) =>
        FreeStep(o.h, live, p);
        ok := o.Free(p);
        live' := if p == 0 then live else live - {p};
    }
  }

  /** A store to one's own payload leaves the heap sound. */
  lemma PutServed(head: int, w: World, p: int, x: int, v: int)
    requires Served(head, w) && Owns(w.live, p, x) && x in w.m
    ensures Follows(head, w, Put(p, x, v), w.(m := w.m[x := v]))
  {
    hide Aligned, Rep;
    assert InUse(w.h, Entry(p));
    PayloadStore(w.m, head, w.h, Entry(p), x, v);
  }

  lemma OwnsWord(head: int, w: World, p: int, x: int)
    requires Served(head, w) && Owns(w.live, p, x)
    ensures OwnWord(Users(w.h), Entry(p), x)
  {
    hide Inv, Rep;
    assert InUse(w.h, Entry(p));
  }

  /** No two payloads share a word. */
  lemma OwnsOne(head: int, w: World, p: int, q: int, x: int)
    requires Served(head, w) && Owns(w.live, p, x) && Owns(w.live, q, x)
    ensures p == q
  {
    hide Inv, Rep;
    if p != q {
      assert InUse(w.h, Entry(q));
      PayloadsApart(w.h, w.live, p, Entry(q));
    }
  }

  /** What the owner of p stored last at x, v0 if nothing. */
  function LastPut(es: seq<Event>, p: int, x: int, v0: int): int {
    if es == [] then v0
    else
      var e := es[|es| - 1];
      if e.Put? && e.p == p && e.x == x then e.v else LastPut(es[..|es| - 1], p, x, v0)
  }

  lemma EventKeeps(head: int, w: World, e: Event, w': World, p: int, x: int)
    requires Follows(head, w, e, w') && Owns(w.live, p, x) && p in w'.live && x in w.m && x in w'.m
    ensures w'.m[x] == if e.Put? && e.p == p && e.x == x then e.v else w.m[x]
  {
    hide Inv, Rep, Sound, AllocChunk, PAllocChunk, Release;
    match e
    case Put(q, y, v) =>
      if y == x { OwnsOne(head, w, p, q, x); }
    case Call(op) =>
      OwnsWord(head, w, p, x);
      KeptWord(w, op, w', p, x);
      hide Users;
  }

  /** A payload word that stays live is unmapped by an event exactly when it is the borrowed one and the heap now ends there. */
  lemma WordLost(head: int, w: World, e: Event, w': World, p: int, x: int)
    requires Follows(head, w, e, w') && Owns(w.live, p, x) && p in w'.live && x in w.m
    ensures x !in w'.m <==> x == w'.h.end
    ensures x !in w'.m ==> x == Entry(p) + w'.h.chunks[Entry(p)].size && w'.h.end < w.h.end
  {
    hide Follows;
    SameSize(head, w, e, w', p);
    FollowsServed(head, w, e, w');
    WordMapped(head, w, p, x);
    WordMapped(head, w', p, x);
  }

  lemma FollowsServed(head: int, w: World, e: Event, w': World)
    requires Follows(head, w, e, w')
    ensures Served(head, w) && Served(head, w')
  {
  }

  /** Where a payload word lies, and when it is mapped. */
  lemma WordMapped(head: int, w: World, p: int, x: int)
    requires Served(head, w) && Owns(w.live, p, x)
    ensures Entry(p) in w.h.chunks && x <= Entry(p) + w.h.chunks[Entry(p)].size <= w.h.end && (x in w.m <==> x < w.h.end)
  {
    hide Ring, Tagged, Aligned, Listed, Coalesced;
    assert InUse(w.h, Entry(p));
    Below(w.h.chunks, w.h.start, w.h.end, Entry(p));
    assert Good(w.h.chunks, w.h.start, w.h.end, Entry(p));
  }

  lemma KeptWord(w: World, op: Op, w': World, p: int, x: int)
    requires Sound(w.h, w.live) && Step(w.h, w.live, op) == Running(w'.h, w'.live) && p in w'.live && OwnWord(Users(w.h), Entry(p), x)
    ensures OwnWord(Kept(w.h, op), Entry(p), x)
  {
    hide Inv, Users, AllocChunk, PAllocChunk, Release;
    PayloadLive(w.h, w.live, p);
  }

  lemma PayloadLive(h: Heap, live: map<int, int>, p: int)
    requires Sound(h, live) && Entry(p) in Users(h)
    ensures 0 < p
  {
    hide Aligned, Listed, Coalesced;
    assert Good(h.chunks, h.start, h.end, Entry(p));
  }

  /** A run of events. */
  ghost predicate Run(head: int, ws: seq<World>, es: seq<Event>) {
    |ws| == |es| + 1 && forall i :: 0 <= i < |es| ==> Follows(head, ws[i], es[i], ws[i + 1])
  }

  /** Payload p is live, and its word x mapped, throughout. */
  ghost predicate LiveWord(ws: seq<World>, p: int, x: int) {
    forall i :: 0 <= i < |ws| ==> p in ws[i].live && x in ws[i].m
  }

  /** The size asked for does not change while a payload is live. */
  lemma SameSize(head: int, w: World, e: Event, w': World, p: int)
    requires Follows(head, w, e, w') && p in w.live && p in w'.live
    ensures w'.live[p] == w.live[p]
  {
    hide Inv, Rep, Users, AllocChunk, PAllocChunk, Release, Keeps;
    if e.Call? && !e.op.Free? { NewPayload(w, e.op, w', p); }
  }

  lemma NewPayload(w: World, op: Op, w': World, p: int)
    requires Sound(w.h, w.live) && Step(w.h, w.live, op) == Running(w'.h, w'.live) && !op.Free? && p in w.live
    ensures w'.live[p] == w.live[p]
  {
    hide Inv, Users, AllocChunk, PAllocChunk, Release, Request2Size, Servable, PaddedSize;
    RequestFits(op.size);
    if op.Alloc? {
      AllocInv(w.h, Request2Size(op.size));
    } else {
      PAllocInv(w.h, Request2Size(op.size));
    }
    LiveFromUsers(w.h, w.live, p);
  }

  lemma RunBefore(head: int, ws: seq<World>, es: seq<Event>, p: int, x: int)
    requires Run(head, ws, es) && LiveWord(ws, p, x) && es != []
    ensures Run(head, ws[..|es|], es[..|es| - 1]) && LiveWord(ws[..|es|], p, x)
  {
    hide Follows;
    forall i | 0 <= i < |es| - 1 ensures Follows(head, ws[..|es|][i], es[..|es| - 1][i], ws[..|es|][i + 1]) {
      assert Follows(head, ws[i], es[i], ws[i + 1]);
    }
  }

  /**
   Over every run of calls and stores: a word of a payload that stays live holds what its owner stored
   there last, whatever the heap and the owners of other payloads do in between.
   */
  lemma {:induction false} ContentsKept(head: int, ws: seq<World>, es: seq<Event>, p: int, x: int)
    requires Run(head, ws, es) && LiveWord(ws, p, x) && Owns(ws[0].live, p, x)
    ensures ws[|es|].m[x] == LastPut(es, p, x, ws[0].m[x]) && Owns(ws[|es|].live, p, x)
    decreases |es|
  {
    hide Follows;
    if es != [] {
      var n := |es| - 1;
      RunBefore(head, ws, es, p, x);
      ContentsKept(head, ws[..n + 1], es[..n], p, x);
      assert Follows(head, ws[n], es[n], ws[n + 1]);
      SameSize(head, ws[n], es[n], ws[n + 1], p);
      EventKeeps(head, ws[n], es[n], ws[n + 1], p, x);
    }
  }
}
