/** GPUBufferManager, for its one GPU and one caller at a time: cached blocks from two bump regions,
    and pool blocks with a ledger of two tables, locking and reset. */
module BufferManager {
  import opened Options
  import opened CacheAllocator

  type Ptr = nat
  const NULL: Ptr := 0
  const DOUBLE_ALIGNMENT := 8

  datatype MallocResult = Allocated(ptr: Ptr) | Misaligned | OutOfCachingMemory | NullPointer

  datatype FreeResult = Ignored | Deallocated(size: nat) | NotFound

  type Blocks = map<Ptr, nat>

  /** A cached table column, with the row ids it is read through at the moment. */
  datatype CachedColumn = CachedColumn(data: Ptr, rowIds: Ptr, rowIdCount: nat)

  datatype CachedTable = CachedTable(columns: seq<Option<CachedColumn>>, columnNames: seq<string>, columnCount: nat)

  /** The same columns, read row by row. */
  predicate Detached(before: CachedTable, after: CachedTable) {
    && after.columnNames == before.columnNames && after.columnCount == before.columnCount
    && |after.columns| == |before.columns|
    && forall c :: 0 <= c < |after.columns| ==>
         if before.columns[c].None? then after.columns[c].None?
         else after.columns[c] == Some(CachedColumn(before.columns[c].value.data, NULL, 0))
  }

  /** A table without columns, ready to be cached again. */
  predicate Cleared(before: CachedTable, after: CachedTable) {
    && after.columnCount == before.columnCount && |after.columns| == |before.columns| && |after.columnNames| == before.columnCount
    && (forall c :: 0 <= c < |after.columns| ==> after.columns[c].None?)
    && forall c :: 0 <= c < |after.columnNames| ==> after.columnNames[c] == ""
  }

  /** The last request of a region that has no other in flight. */
  lemma OneRequest(r: Region, size: nat)
    requires Counted(r) && Sound(r) && AllSettled(r)
    ensures var added := Add(r, size);
            && Counted(added) && CanSettle(added, |r.requests|)
            && Counted(Settle(added, |r.requests|)) && Sound(Settle(added, |r.requests|)) && AllSettled(Settle(added, |r.requests|))
            && Settle(added, |r.requests|).counter == r.counter + if r.counter + size <= r.limit then size else 0
  {
    AddKeeps(r, size);
    SettleKeeps(Add(r, size), |r.requests|);
  }

  /** One request, from its atomic add to its end. */
  function Served(r: Region, size: nat): Region
    requires Quiet(r)
  {
    OneRequest(r, size);
    Settle(Add(r, size), |r.requests|)
  }

  predicate Quiet(r: Region) {
    Counted(r) && Sound(r) && AllSettled(r) && RegionAligned(r)
  }

  lemma ServedIsQuiet(r: Region, size: nat)
    requires Quiet(r) && size % ALIGNMENT == 0
    ensures Quiet(Served(r, size)) && Served(r, size).limit == r.limit
    ensures Served(r, size).counter == r.counter + if r.counter + size <= r.limit then size else 0
    ensures |Served(r, size).requests| == |r.requests| + 1 && Served(r, size).requests[..|r.requests|] == r.requests
    ensures Served(r, size).requests[|r.requests|] ==
            Request(Block(r.counter, size), if r.counter + size <= r.limit then Granted else Undone)
  {
    hide Held, Placed;
    OneRequest(r, size);
  }

  lemma StartAligned(r: Region)
    requires Quiet(r)
    ensures r.counter % DOUBLE_ALIGNMENT == 0
  {
  }

  /** The two tables and the stored buffers divide the pool's live blocks among them, each with its
      exact size. */
  predicate Divided(pool: Blocks, free: Blocks, locked: Blocks, stored: Blocks) {
    && free.Keys !! locked.Keys && free.Keys !! stored.Keys && locked.Keys !! stored.Keys
    && pool.Keys == free.Keys + locked.Keys + stored.Keys
    && (forall p <- free :: pool[p] == free[p]) && (forall p <- locked :: pool[p] == locked[p])
    && (forall p <- stored :: pool[p] == stored[p])
  }

  lemma DividedWith(pool: Blocks, free: Blocks, locked: Blocks, stored: Blocks, p: Ptr, size: nat)
    requires Divided(pool, free, locked, stored) && p !in pool
    ensures Divided(pool[p := size], free[p := size], locked, stored) && Divided(pool[p := size], free, locked, stored[p := size])
  {
  }

  lemma DividedWithout(pool: Blocks, free: Blocks, locked: Blocks, stored: Blocks, p: Ptr)
    requires Divided(pool, free, locked, stored)
    ensures p in free ==> p in pool && pool[p] == free[p] && Divided(pool - {p}, free - {p}, locked, stored)
    ensures p in pool <==> p in free || p in locked || p in stored
  {
  }

  /** Each part can be taken out after the others. */
  lemma ThreeParts(pool: Blocks, free: Blocks, locked: Blocks, stored: Blocks)
    requires Divided(pool, free, locked, stored)
    ensures pool - free.Keys - locked.Keys - stored.Keys == map[]
    ensures forall p <- free :: p in pool && pool[p] == free[p]
    ensures forall p <- locked :: p in pool - free.Keys && pool[p] == locked[p]
    ensures forall p <- stored :: p in pool - free.Keys - locked.Keys && pool[p] == stored[p]
  {
  }

  lemma NothingDivided()
    ensures Divided(map[], map[], map[], map[])
  {
  }

  /** Whatever the pool handed out it took back, with the same size, or it is live: no block goes
      back twice. */
  ghost predicate Balanced(granted: multiset<(Ptr, nat)>, released: multiset<(Ptr, nat)>, pool: Blocks) {
    forall p, size :: granted[(p, size)] == released[(p, size)] + if p in pool && pool[p] == size then 1 else 0
  }

  lemma BalancedWith(granted: multiset<(Ptr, nat)>, released: multiset<(Ptr, nat)>, pool: Blocks, p: Ptr, size: nat)
    requires Balanced(granted, released, pool) && p !in pool
    ensures Balanced(granted + multiset{(p, size)}, released, pool[p := size])
  {
  }

  lemma BalancedWithout(granted: multiset<(Ptr, nat)>, released: multiset<(Ptr, nat)>, pool: Blocks, p: Ptr)
    requires Balanced(granted, released, pool) && p in pool
    ensures Balanced(granted, released + multiset{(p, pool[p])}, pool - {p})
  {
  }

  lemma AllReturned(granted: multiset<(Ptr, nat)>, released: multiset<(Ptr, nat)>)
    requires Balanced(granted, released, map[])
    ensures granted == released
  {
    forall b: (Ptr, nat)
      ensures granted[b] == released[b]
    {
      assert granted[(b.0, b.1)] == released[(b.0, b.1)];
    }
  }

  /** The bytes of a block of a region that starts at `base`. */
  predicate Covers(base: nat, b: Block, address: nat) {
    base + b.start <= address < base + b.start + b.size
  }

  /** No byte belongs to two granted blocks, in whichever region they are. */
  lemma GrantedBlocksApart(base: nat, r: Region, i: nat, base': nat, r': Region, j: nat, address: nat)
    requires Sound(r) && Counted(r) && Sound(r') && Counted(r')
    requires i < |r.requests| && r.requests[i].status.Granted? && j < |r'.requests| && r'.requests[j].status.Granted?
    requires if base == base' && r == r' then i < j else base + r.limit <= base' || base' + r'.limit <= base
    ensures !(Covers(base, r.requests[i].block, address) && Covers(base', r'.requests[j].block, address))
  {
    hide Held, Placed;
  }

  class BufferManager {
    const gpuCache: Ptr
    const cpuCache: Ptr
    const gpuCacheSize: nat
    const cacheSize: nat
    var gpuCachingPointer: nat
    var cpuCachingPointer: nat
    ghost var gpuRegion: Region
    ghost var cpuRegion: Region
    var allocationTable: Blocks
    var lockedTable: Blocks
    var storedBuffers: Blocks
    var tables: map<string, CachedTable>
    // the pool's live blocks, and all it ever handed out and took back
    var pool: Blocks
    ghost var granted: multiset<(Ptr, nat)>
    ghost var released: multiset<(Ptr, nat)>

    predicate InCache(ptr: Ptr) {
      || gpuCache <= ptr < gpuCache + gpuCacheSize
      || (cpuCache != NULL && cpuCache <= ptr < cpuCache + (cacheSize - gpuCacheSize))
    }

    ghost predicate CacheValid()
      reads this
    {
      && gpuCacheSize <= cacheSize && (gpuCacheSize < cacheSize ==> cpuCache != NULL)
      && Quiet(gpuRegion) && gpuRegion.limit == gpuCacheSize && gpuRegion.counter == gpuCachingPointer
      && Quiet(cpuRegion) && cpuRegion.limit == cacheSize - gpuCacheSize && cpuRegion.counter == cpuCachingPointer
    }

    ghost predicate LedgerValid()
      reads this
    {
      && Divided(pool, allocationTable, lockedTable, storedBuffers) && Balanced(granted, released, pool)
      && forall p <- pool :: p != NULL && !InCache(p)
    }

    constructor (cacheSize: nat, freeGpuMemory: nat, gpuCache: Ptr, cpuCache: Ptr)
      requires NULL != gpuCache && NULL != cpuCache
      ensures CacheValid() && LedgerValid() && pool == map[] && tables == map[] && this.cacheSize == cacheSize
      ensures this.gpuCache == gpuCache && gpuCacheSize == if freeGpuMemory >= cacheSize then cacheSize else freeGpuMemory
      ensures this.cpuCache == if freeGpuMemory >= cacheSize then NULL else cpuCache
    {
      this.cacheSize := cacheSize;
      this.gpuCache := gpuCache;
      this.gpuCacheSize := if freeGpuMemory >= cacheSize then cacheSize else freeGpuMemory;
      this.cpuCache := if freeGpuMemory >= cacheSize then NULL else cpuCache;
      gpuCachingPointer, cpuCachingPointer := 0, 0;
      gpuRegion := Region(if freeGpuMemory >= cacheSize then cacheSize else freeGpuMemory, 0, []);
      cpuRegion := Region(cacheSize - (if freeGpuMemory >= cacheSize then cacheSize else freeGpuMemory), 0, []);
      allocationTable, lockedTable, storedBuffers, pool := map[], map[], map[], map[];
      granted, released := multiset{}, multiset{};
      tables := map[];
    }

    // customCudaMalloc with caching.
    method MallocCached(bytes: nat) returns (result: MallocResult)
      requires CacheValid()
      modifies this`gpuCachingPointer, this`cpuCachingPointer, this`gpuRegion, this`cpuRegion
      ensures CacheValid()
      ensures var alloc := Padded(bytes);
              var gpuFits := old(gpuCachingPointer) + alloc <= gpuCacheSize;
              var cpuFits := old(cpuCachingPointer) + alloc <= cacheSize - gpuCacheSize;
              && gpuRegion == Served(old(gpuRegion), alloc)
              && cpuRegion == (if gpuFits then old(cpuRegion) else Served(old(cpuRegion), alloc))
              && (result.OutOfCachingMemory? <==> !gpuFits && !cpuFits)
              && (result.OutOfCachingMemory? ==>
                    gpuCachingPointer == old(gpuCachingPointer) && cpuCachingPointer == old(cpuCachingPointer))
              && (gpuFits || cpuFits ==>
                    var ptr := if gpuFits then gpuCache + old(gpuCachingPointer) else cpuCache + old(cpuCachingPointer);
                    result == if ptr % 8 == 0 then Allocated(ptr) else Misaligned)
      // what is handed out lies in the cache, byte for byte
      ensures result.Allocated? ==> forall a :: result.ptr <= a < result.ptr + Padded(bytes) ==> InCache(a)
      ensures result.Misaligned? ==> gpuCache % 8 != 0 || cpuCache % 8 != 0
      ensures result.Allocated? || result.Misaligned? || result.OutOfCachingMemory?
    {
      hide Held, Placed, Quiet, Served;
      var alloc := bytes + (ALIGNMENT - bytes % ALIGNMENT);
      assert alloc == Padded(bytes);
      ghost var gpu, cpu := gpuRegion, cpuRegion;
      assert Quiet(gpu) && Quiet(cpu);
      ServedIsQuiet(gpu, alloc);
      ServedIsQuiet(cpu, alloc);
      StartAligned(gpu);
      StartAligned(cpu);
      gpuRegion := Served(gpu, alloc);
      var ptr: Ptr;
      var start := gpuCachingPointer;
      gpuCachingPointer := gpuCachingPointer + alloc;
      if start + alloc <= gpuCacheSize {
        ptr := gpuCache + start;
      } else {
        gpuCachingPointer := gpuCachingPointer - alloc;
        cpuRegion := Served(cpu, alloc);
        start := cpuCachingPointer;
        cpuCachingPointer := cpuCachingPointer + alloc;
        if start + alloc > cacheSize - gpuCacheSize {
          cpuCachingPointer := cpuCachingPointer - alloc;
          return OutOfCachingMemory;
        }
        ptr := cpuCache + start;
      }
      assert start % DOUBLE_ALIGNMENT == 0;
      if ptr % DOUBLE_ALIGNMENT != 0 {
        return Misaligned;
      }
      return Allocated(ptr);
    }

    // The pool, which never hands out a live block, and takes back only live ones, with their size.
    method PoolAllocate(ptr: Ptr, size: nat)
      requires ptr !in pool && Balanced(granted, released, pool)
      modifies this`pool, this`granted
      ensures pool == old(pool)[ptr := size] && Balanced(granted, released, pool)
      ensures granted == old(granted) + multiset{(ptr, size)}
    {
      BalancedWith(granted, released, pool, ptr, size);
      pool := pool[ptr := size];
      granted := granted + multiset{(ptr, size)};
    }

    method PoolDeallocate(ptr: Ptr, size: nat)
      requires ptr in pool && pool[ptr] == size && Balanced(granted, released, pool)
      modifies this`pool, this`released
      ensures pool == old(pool) - {ptr} && Balanced(granted, released, pool)
      ensures released == old(released) + multiset{(ptr, size)}
    {
      BalancedWithout(granted, released, pool, ptr);
      pool := pool - {ptr};
      released := released + multiset{(ptr, size)};
    }

    // customCudaMalloc without caching; the pool answers with `fromPool`.
    method MallocProcessing(bytes: nat, fromPool: Ptr) returns (result: MallocResult)
      requires LedgerValid() && fromPool !in pool && !InCache(fromPool)
      modifies this`pool, this`granted, this`allocationTable
      ensures LedgerValid()
      ensures result == if fromPool == NULL then NullPointer else Allocated(fromPool)
      ensures allocationTable == if fromPool == NULL then old(allocationTable) else old(allocationTable)[fromPool := Padded(bytes)]
      ensures pool == if fromPool == NULL then old(pool) else old(pool)[fromPool := Padded(bytes)]
    {
      hide Balanced, Divided;
      if fromPool != NULL {
        DividedWith(pool, allocationTable, lockedTable, storedBuffers, fromPool, Padded(bytes));
      }
      var alloc := bytes + (ALIGNMENT - bytes % ALIGNMENT);
      if fromPool == NULL {
        return NullPointer;
      }
      PoolAllocate(fromPool, alloc);
      allocationTable := allocationTable[fromPool := alloc];
      return Allocated(fromPool);
    }

    // A buffer that a library call took from the pool, kept until the next reset.
    method StoreBuffer(ptr: Ptr, size: nat)
      requires LedgerValid() && ptr !in pool && ptr != NULL && !InCache(ptr)
      modifies this`pool, this`granted, this`storedBuffers
      ensures LedgerValid() && storedBuffers == old(storedBuffers)[ptr := size] && pool == old(pool)[ptr := size]
    {
      hide Balanced, Divided;
      DividedWith(pool, allocationTable, lockedTable, storedBuffers, ptr, size);
      PoolAllocate(ptr, size);
      storedBuffers := storedBuffers[ptr := size];
    }

    // lockAllocation: nothing happens to a block that is not in the allocation table.
    method LockAllocation(ptr: Ptr)
      requires LedgerValid()
      modifies this`allocationTable, this`lockedTable
      ensures LedgerValid()
      ensures allocationTable == old(allocationTable) - {ptr}
      ensures lockedTable ==
              if ptr in old(allocationTable) then old(lockedTable)[ptr := old(allocationTable)[ptr]] else old(lockedTable)
    {
      hide Balanced;
      if ptr in allocationTable {
        lockedTable := lockedTable[ptr := allocationTable[ptr]];
        allocationTable := allocationTable - {ptr};
      }
    }

    // customCudaFree: only unlocked blocks of the ledger go back to the pool.
    method CustomCudaFree(ptr: Ptr) returns (result: FreeResult)
      requires LedgerValid()
      modifies this`pool, this`released, this`allocationTable
      ensures LedgerValid()
      ensures result.Deallocated? <==> ptr in old(allocationTable)
      ensures result.Deallocated? ==> result.size == old(allocationTable)[ptr]
      ensures result.NotFound? <==> ptr != NULL && !InCache(ptr) && ptr !in old(pool)
      // nothing happens to a cached block
      ensures InCache(ptr) ==> result.Ignored? && pool == old(pool) && allocationTable == old(allocationTable)
      ensures allocationTable == old(allocationTable) - {ptr}
      ensures pool == if result.Deallocated? then old(pool) - {ptr} else old(pool)
      ensures released == old(released) + if result.Deallocated? then multiset{(ptr, result.size)} else multiset{}
    {
      hide Balanced, Divided;
      DividedWithout(pool, allocationTable, lockedTable, storedBuffers, ptr);
      assert ptr !in allocationTable ==> allocationTable - {ptr} == allocationTable;
      if ptr == NULL {
        return Ignored;
      }
      if gpuCache <= ptr && ptr < gpuCache + gpuCacheSize {
        return Ignored;
      }
      if cpuCache != NULL && ptr >= cpuCache && ptr < cpuCache + cacheSize - gpuCacheSize {
        return Ignored;
      }
      if ptr in allocationTable {
        var size := allocationTable[ptr];
        PoolDeallocate(ptr, size);
        allocationTable := allocationTable - {ptr};
        return Deallocated(size);
      }
      if ptr !in lockedTable {
        if ptr !in storedBuffers {
          return NotFound;
        }
      }
      return Ignored;
    }

    // All blocks of one table.
    method DeallocateAll(blocks: Blocks)
      requires forall p <- blocks :: p != NULL && p in pool && pool[p] == blocks[p]
      requires Balanced(granted, released, pool)
      modifies this`pool, this`released
      ensures pool == old(pool) - blocks.Keys && Balanced(granted, released, pool)
    {
      hide Balanced;
      var left := blocks.Keys;
      while left != {}
        invariant left <= blocks.Keys && pool == old(pool) - (blocks.Keys - left) && Balanced(granted, released, pool)
      {
        var ptr :| ptr in left;
        if ptr != NULL {
          PoolDeallocate(ptr, blocks[ptr]);
        }
        left := left - {ptr};
      }
    }

    static method Detach(table: CachedTable) returns (after: CachedTable)
      ensures Detached(table, after)
    {
      after := table;
      for c := 0 to |table.columns|
        invariant after == table.(columns := after.columns) && |after.columns| == |table.columns|
        invariant forall k :: c <= k < |table.columns| ==> after.columns[k] == table.columns[k]
        invariant forall k :: 0 <= k < c ==>
                    if table.columns[k].None? then after.columns[k].None?
                    else after.columns[k] == Some(CachedColumn(table.columns[k].value.data, NULL, 0))
      {
        if after.columns[c].Some? {
          var column := after.columns[c].value.(rowIds := NULL, rowIdCount := 0);
          after := after.(columns := after.columns[c := Some(column)]);
        }
      }
    }

    static method Clear(table: CachedTable) returns (after: CachedTable)
      ensures Cleared(table, after)
    {
      after := table;
      for c := 0 to |table.columns|
        invariant after == table.(columns := after.columns) && |after.columns| == |table.columns|
        invariant forall k :: 0 <= k < c ==> after.columns[k].None?
      {
        after := after.(columns := after.columns[c := None]);
      }
      after := after.(columnNames := seq(after.columnCount, _ => ""));
    }

    // Both tables and the stored buffers go back to the pool.
    method ReleaseBlocks()
      requires LedgerValid()
      modifies this`pool, this`released, this`allocationTable, this`lockedTable, this`storedBuffers
      ensures LedgerValid() && pool == map[] && granted == released
      ensures allocationTable == map[] && lockedTable == map[] && storedBuffers == map[]
    {
      hide Balanced, Divided;
      ThreeParts(pool, allocationTable, lockedTable, storedBuffers);
      DeallocateAll(allocationTable);
      allocationTable := map[];
      DeallocateAll(lockedTable);
      lockedTable := map[];
      DeallocateAll(storedBuffers);
      storedBuffers := map[];
      NothingDivided();
      AllReturned(granted, released);
    }

    method DetachTables()
      modifies this`tables
      ensures tables.Keys == old(tables).Keys && forall t <- tables :: Detached(old(tables)[t], tables[t])
    {
      hide Detached;
      var left := tables.Keys;
      while left != {}
        invariant left <= tables.Keys == old(tables).Keys
        invariant forall t <- tables :: if t in left then tables[t] == old(tables)[t] else Detached(old(tables)[t], tables[t])
      {
        var t :| t in left;
        var after := Detach(tables[t]);
        tables := tables[t := after];
        left := left - {t};
      }
    }

    // What operators left in the cached tables points to the processing pool, which is emptied.
    method ResetBuffer()
      requires LedgerValid()
      modifies this`pool, this`released, this`allocationTable, this`lockedTable, this`storedBuffers, this`tables
      ensures LedgerValid() && pool == map[] && granted == released
      ensures allocationTable == map[] && lockedTable == map[] && storedBuffers == map[]
      ensures tables.Keys == old(tables).Keys && forall t <- tables :: Detached(old(tables)[t], tables[t])
    {
      hide Balanced, Divided, Detached;
      ReleaseBlocks();
      DetachTables();
    }

    method ResetCache()
      requires CacheValid()
      modifies this`gpuCachingPointer, this`cpuCachingPointer, this`gpuRegion, this`cpuRegion, this`tables
      ensures CacheValid() && gpuCachingPointer == 0 && cpuCachingPointer == 0
      ensures gpuRegion.requests == [] && cpuRegion.requests == []
      ensures tables.Keys == old(tables).Keys && forall t <- tables :: Cleared(old(tables)[t], tables[t])
    {
      hide Cleared;
      gpuCachingPointer, cpuCachingPointer := 0, 0;
      gpuRegion, cpuRegion := Region(gpuCacheSize, 0, []), Region(cacheSize - gpuCacheSize, 0, []);
      var left := tables.Keys;
      while left != {}
        invariant left <= tables.Keys == old(tables).Keys && CacheValid() && gpuCachingPointer == 0 && cpuCachingPointer == 0
        invariant gpuRegion.requests == [] && cpuRegion.requests == []
        invariant forall t <- tables :: if t in left then tables[t] == old(tables)[t] else Cleared(old(tables)[t], tables[t])
      {
        var t :| t in left;
        var after := Clear(tables[t]);
        tables := tables[t := after];
        left := left - {t};
      }
    }
  }

  /** The cache is the bytes of the two regions. */
  lemma InCacheIff(manager: BufferManager, address: nat)
    requires manager.CacheValid()
    ensures manager.InCache(address) <==>
            || Covers(manager.gpuCache, Block(0, manager.gpuRegion.limit), address)
            || Covers(manager.cpuCache, Block(0, manager.cpuRegion.limit), address)
  {
  }
}
