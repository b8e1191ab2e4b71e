/**
 * The result cache: a Redis server when it answered the startup ping, otherwise (and from
 * the first connection or timeout error on) an in-process dictionary.  Values are stored as
 * their JSON text; since every value read back is the one `json.dumps` wrote, the model keeps
 * the decoded value itself.
 */
module RedisCache {
  import opened Wrappers
  import opened Text
  import opened JsonValues

  // ---------------------------------------------------------------------------------------
  // Keys

  const ResumePrefix := "resume_data:"
  const MatchPrefix := "match:"

  /** `f"resume_data:{resume_id}"`. */
  function ResumeKey(resumeId: string): string {
    ResumePrefix + resumeId
  }

  /** `f"match:{resume_id}:{job_hash}"`. */
  function MatchKey(resumeId: string, jobHash: string): string {
    MatchPrefix + resumeId + ":" + jobHash
  }

  /** Different résumés have different keys. */
  lemma ResumeKeyInjective(a: string, b: string)
    requires ResumeKey(a) == ResumeKey(b)
    ensures a == b
  {
    assert a == ResumeKey(a)[|ResumePrefix|..];
    assert b == ResumeKey(b)[|ResumePrefix|..];
  }

  /** A résumé key is never a match key. */
  lemma KeyKindsDisjoint(resumeId: string, otherId: string, jobHash: string)
    ensures ResumeKey(resumeId) != MatchKey(otherId, jobHash)
  {
    assert ResumeKey(resumeId)[0] == 'r';
    assert MatchKey(otherId, jobHash)[0] == 'm';
  }

  /**
   * Match keys identify the pair when job hashes hold no ':' (as hex digests do), whatever the
   * résumé identifier holds: the last ':' separates the two.
   */
  lemma MatchKeyInjective(a: string, h: string, b: string, k: string)
    requires ':' !in h && ':' !in k
    requires MatchKey(a, h) == MatchKey(b, k)
    ensures a == b && h == k
  {
    var s := MatchKey(a, h);
    var i := |MatchPrefix| + |a|;
    var j := |MatchPrefix| + |b|;
    assert s[i] == ':' && s[i + 1..] == h;
    RFindAt(s, ':', i);
    assert s[j] == ':' && s[j + 1..] == k;
    RFindAt(s, ':', j);
    assert a == s[|MatchPrefix|..i];
    assert b == s[|MatchPrefix|..j];
  }

  /** Without the hypothesis on hashes, two different pairs can share a key. */
  lemma MatchKeyNeedsColonFreeHash()
    ensures MatchKey("a:b", "c") == MatchKey("a", "b:c")
  {
  }

  // ---------------------------------------------------------------------------------------
  // Behaviour of one Redis call, and of the cache as a value

  /** How one call to the Redis server ends. */
  datatype StoreFault =
    | NoFault      // the call succeeds
    | Unreachable  // `redis.ConnectionError` or `redis.TimeoutError`: the service falls back to memory
    | Rejected     // any other Redis error: it propagates to the caller

  /** Outcome of a cache read. */
  datatype CacheRead = Found(value: Json) | Missing | Raised

  /** What the service sees: the Redis contents while connected, and its in-memory dictionary. */
  datatype CacheState = CacheState(backing: Option<map<string, Json>>, memory: map<string, Json>)

  datatype ReadStep = ReadStep(outcome: CacheRead, next: CacheState)

  datatype WriteStep = WriteStep(raised: bool, next: CacheState)

  /** The memory dictionary only fills once Redis has been given up. */
  predicate ValidState(st: CacheState) {
    st.backing.Some? ==> st.memory == map[]
  }

  /** Reading from the in-memory dictionary. */
  function MemoryLookup(st: CacheState, key: string): CacheRead {
    if key in st.memory then Found(st.memory[key]) else Missing
  }

  /**
   * `get_resume_data` / `get_match_result` on the state: a read never touches the memory
   * dictionary; it raises (changing nothing) only on a non-connection error, a connection
   * error gives Redis up, a key Redis holds is found there, and otherwise the dictionary answers.
   */
  function Read(st: CacheState, key: string, fault: StoreFault): (r: ReadStep)
    ensures r.next.memory == st.memory
    ensures r.outcome == Raised ==> r.next == st
    ensures r.next.backing.Some? ==> r.next == st
    ensures st.backing.Some? && fault == Unreachable ==> r.next.backing.None?
    ensures st.backing.Some? && fault == NoFault && key in st.backing.value ==>
              r.outcome == Found(st.backing.value[key])
    ensures r.outcome != Raised && (r.next.backing.None? || key !in st.backing.value) ==>
              r.outcome == MemoryLookup(st, key)
  {
    match st.backing
    case None => ReadStep(MemoryLookup(st, key), st)
    case Some(entries) =>
      match fault
      case NoFault =>
        if key in entries then ReadStep(Found(entries[key]), st) else ReadStep(MemoryLookup(st, key), st)
      case Unreachable =>
        var degraded := CacheState(None, st.memory);
        ReadStep(MemoryLookup(degraded, key), degraded)
      case Rejected => ReadStep(Raised, st)
  }

  /**
   * `cache_resume_data` / `cache_match_result` on the state: a raising write changes nothing;
   * otherwise the value lands in Redis while it stays in use, else in the memory dictionary.
   */
  function Write(st: CacheState, key: string, value: Json, fault: StoreFault): (w: WriteStep)
    ensures w.raised ==> w.next == st
    ensures !w.raised && w.next.backing.Some? ==>
              st.backing.Some? && w.next == CacheState(Some(st.backing.value[key := value]), st.memory)
    ensures !w.raised && w.next.backing.None? ==> w.next.memory == st.memory[key := value]
  {
    match st.backing
    case None => WriteStep(false, CacheState(None, st.memory[key := value]))
    case Some(entries) =>
      match fault
      case NoFault => WriteStep(false, CacheState(Some(entries[key := value]), st.memory))
      case Unreachable => WriteStep(false, CacheState(None, st.memory[key := value]))
      case Rejected => WriteStep(true, st)
  }

  /** Reads and writes keep the memory dictionary empty while Redis is in use. */
  lemma StepsKeepValid(st: CacheState, key: string, value: Json, fault: StoreFault)
    ensures ValidState(st) ==> ValidState(Read(st, key, fault).next)
    ensures ValidState(st) ==> ValidState(Write(st, key, value, fault).next)
  {
  }

  /** Once Redis has been given up it is never used again. */
  lemma FallbackIsPermanent(st: CacheState, key: string, value: Json, fault: StoreFault)
    requires st.backing.None?
    ensures Read(st, key, fault).next.backing.None?
    ensures Write(st, key, value, fault).next.backing.None?
  {
  }

  /** Only a call to a connected Redis that fails with a non-connection error raises. */
  lemma RaisesOnlyWhenRejected(st: CacheState, key: string, value: Json, fault: StoreFault)
    ensures Read(st, key, fault).outcome == Raised <==> st.backing.Some? && fault == Rejected
    ensures Write(st, key, value, fault).raised <==> st.backing.Some? && fault == Rejected
    ensures Read(st, key, fault).outcome == Raised ==> Read(st, key, fault).next == st
    ensures Write(st, key, value, fault).raised ==> Write(st, key, value, fault).next == st
  {
  }

  /** A stored value is read back, unless the write raised or the read gives up a reachable Redis. */
  lemma ReadAfterWrite(st: CacheState, key: string, value: Json, wf: StoreFault, rf: StoreFault)
    requires ValidState(st)
    requires !Write(st, key, value, wf).raised
    requires Write(st, key, value, wf).next.backing.Some? ==> rf == NoFault
    ensures Read(Write(st, key, value, wf).next, key, rf).outcome == Found(value)
  {
  }

  /** A write that keeps Redis in use leaves every other key reading as before. */
  lemma WriteLeavesOtherKeys(st: CacheState, key: string, value: Json, wf: StoreFault, other: string, rf: StoreFault)
    requires ValidState(st)
    requires key != other && wf != Unreachable
    ensures Read(Write(st, key, value, wf).next, other, rf).outcome == Read(st, other, rf).outcome
  {
  }

  /**
   * Falling back loses what Redis held: after a connection error while writing, every other key
   * reads as missing, whatever Redis still stores.
   */
  lemma FallbackForgetsEverything(st: CacheState, key: string, value: Json, other: string, rf: StoreFault)
    requires ValidState(st) && st.backing.Some?
    requires key != other
    ensures Read(Write(st, key, value, Unreachable).next, other, rf).outcome == Missing
  {
  }

  /** The state after a sequence of writes, each a key, a value and how its call ends. */
  function WriteAll(st: CacheState, writes: seq<(string, Json, StoreFault)>): CacheState
    decreases |writes|
  {
    if writes == [] then st
    else
      var w := writes[|writes| - 1];
      Write(WriteAll(st, writes[..|writes| - 1]), w.0, w.1, w.2).next
  }

  /**
   * In a cache that starts without Redis (the memory-only service), a key that no write named
   * reads as missing.
   */
  lemma {:induction false} NeverWrittenMissing(writes: seq<(string, Json, StoreFault)>, key: string, fault: StoreFault)
    requires forall i | 0 <= i < |writes| :: writes[i].0 != key
    ensures var st := WriteAll(CacheState(None, map[]), writes);
            st.backing.None? && key !in st.memory
    ensures Read(WriteAll(CacheState(None, map[]), writes), key, fault).outcome == Missing
  {
    if writes != [] {
      var init := writes[..|writes| - 1];
      assert forall i | 0 <= i < |init| :: init[i] == writes[i];
      NeverWrittenMissing(init, key, fault);
    }
  }

  /** A connected Redis that does not hold the key reads it as missing (the dictionary is empty). */
  lemma MissingInRedis(st: CacheState, key: string)
    requires ValidState(st) && st.backing.Some? && key !in st.backing.value
    ensures Read(st, key, NoFault) == ReadStep(Missing, st)
  {
  }

  // ---------------------------------------------------------------------------------------
  // The service object

  /** The Redis server: a dictionary of keys to stored values (expiry is not modelled). */
  class KeyValueStore {
    var entries: map<string, Json>

    constructor(entries: map<string, Json>)
      ensures this.entries == entries
    {
      this.entries := entries;
    }
  }

  /** `RedisService`: a client, `None` once given up, and the fallback dictionary. */
  class RedisService {
    var client: KeyValueStore?
    var memoryCache: map<string, Json>

    ghost predicate Valid()
      reads this
    {
      client != null ==> memoryCache == map[]
    }

    /** The cache as a value. */
    function State(): (st: CacheState)
      reads this, client
      ensures st.backing.Some? <==> client != null
    {
      CacheState(if client == null then None else Some(client.entries), memoryCache)
    }

    /** `__init__`: keeps the client only when the startup ping succeeds. */
    constructor(server: KeyValueStore, pingSucceeds: bool)
      ensures Valid()
      ensures client == (if pingSucceeds then server else null)
      ensures memoryCache == map[]
    {
      client := if pingSucceeds then server else null;
      memoryCache := map[];
    }

    /** One `setex` with the fallback of the two `cache_*` methods. */
    method Store(key: string, value: Json, fault: StoreFault) returns (raised: bool)
      requires Valid()
      modifies this, client
      ensures Valid()
      ensures client == old(client) || client == null
      ensures raised == Write(old(State()), key, value, fault).raised
      ensures State() == Write(old(State()), key, value, fault).next
    {
      raised := false;
      if client != null {
        if fault == NoFault {
          client.entries := client.entries[key := value];
          return;
        } else if fault == Rejected {
          raised := true;
          return;
        }
        client := null;
      }
      memoryCache := memoryCache[key := value];
    }

    /** One `get` with the fallback of the two `get_*` methods. */
    method Fetch(key: string, fault: StoreFault) returns (r: CacheRead)
      requires Valid()
      modifies this
      ensures Valid()
      ensures client == old(client) || client == null
      ensures r == Read(old(State()), key, fault).outcome
      ensures State() == Read(old(State()), key, fault).next
    {
      var data: Option<Json> := None;
      if client != null {
        if fault == NoFault {
          data := Get(client.entries, key);
        } else if fault == Rejected {
          return Raised;
        } else {
          client := null;
        }
      }
      if data.None? {
        data := Get(memoryCache, key);
      }
      r := if data.Some? then Found(data.value) else Missing;
    }

    method CacheResumeData(resumeId: string, data: Json, fault: StoreFault) returns (raised: bool)
      requires Valid()
      modifies this, client
      ensures Valid()
      ensures client == old(client) || client == null
      ensures raised == Write(old(State()), ResumeKey(resumeId), data, fault).raised
      ensures State() == Write(old(State()), ResumeKey(resumeId), data, fault).next
    {
      raised := Store(ResumeKey(resumeId), data, fault);
    }

    method GetResumeData(resumeId: string, fault: StoreFault) returns (r: CacheRead)
      requires Valid()
      modifies this
      ensures Valid()
      ensures client == old(client) || client == null
      ensures r == Read(old(State()), ResumeKey(resumeId), fault).outcome
      ensures State() == Read(old(State()), ResumeKey(resumeId), fault).next
    {
      r := Fetch(ResumeKey(resumeId), fault);
    }

    method CacheMatchResult(resumeId: string, jobHash: string, matchResult: Json, fault: StoreFault)
      returns (raised: bool)
      requires Valid()
      modifies this, client
      ensures Valid()
      ensures client == old(client) || client == null
      ensures raised == Write(old(State()), MatchKey(resumeId, jobHash), matchResult, fault).raised
      ensures State() == Write(old(State()), MatchKey(resumeId, jobHash), matchResult, fault).next
    {
      raised := Store(MatchKey(resumeId, jobHash), matchResult, fault);
    }

    method GetMatchResult(resumeId: string, jobHash: string, fault: StoreFault) returns (r: CacheRead)
      requires Valid()
      modifies this
      ensures Valid()
      ensures client == old(client) || client == null
      ensures r == Read(old(State()), MatchKey(resumeId, jobHash), fault).outcome
      ensures State() == Read(old(State()), MatchKey(resumeId, jobHash), fault).next
    {
      r := Fetch(MatchKey(resumeId, jobHash), fault);
    }
  }
}
