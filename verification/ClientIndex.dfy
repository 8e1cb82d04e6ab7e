/** Clients and their indices. A client type is static or has a configurable number of sub-clients;
    external ids leave room for every possible sub-client, internal ids are consecutive. */
module ClientIndex {
  import opened HwFences
  import opened Remainders

  const STATIC_TYPES: nat := 5
  const CONFIGURABLE_TYPES: nat := 8
  const TYPES: nat := STATIC_TYPES + CONFIGURABLE_TYPES

  /** The id of the first configurable client; smaller ids are static. */
  const STATIC_IDS: nat := 17

  /** Highest id of the static clients that always have a receive queue, and the types they are. */
  const MIN_RXQ_CLIENTS: nat := 14
  const MIN_RXQ_TYPES: nat := 3

  const CLIENT_QUEUES: nat := 2

  datatype ClientType = ClientType(
    initId: nat, maxClients: nat, clientsNum: u32, queuesNum: u32, entries: u32, memSize: u32, skipsWriteIdx: bool)

  /** What is not known here: how many external ids a configurable type takes, and the id past the last. */
  datatype Enumeration = Enumeration(signalsPerClient: nat, clientMax: nat)

  predicate EnumerationOk(e: Enumeration) {
    MaxClients(STATIC_TYPES) <= e.signalsPerClient && Ext(e, TYPES, 0) <= e.clientMax
  }

  function FirstId(i: nat): nat
    requires i < STATIC_TYPES
  {
    [1, 2, 8, 15, 16][i]
  }

  function MaxClients(i: nat): nat {
    if i < STATIC_TYPES then [1, 6, 7, 1, 1][i] else 32
  }

  /** External id of sub-client `j` of type `i`. */
  function Ext(e: Enumeration, i: nat, j: nat): nat {
    if i < STATIC_TYPES then FirstId(i) + j else STATIC_IDS + (i - STATIC_TYPES) * e.signalsPerClient + j
  }

  predicate TypesOk(e: Enumeration, types: seq<ClientType>) {
    && |types| == TYPES
    && forall i | 0 <= i < TYPES ::
         && types[i].initId == Ext(e, i, 0) && types[i].maxClients == MaxClients(i)
         && types[i].clientsNum <= types[i].maxClients
  }

  /** Sub-clients of the configurable types before type `i`. */
  function ConfigurableBefore(types: seq<ClientType>, i: nat): nat
    requires i <= |types|
  {
    if i <= STATIC_TYPES then 0 else ConfigurableBefore(types, i - 1) + types[i - 1].clientsNum
  }

  function ClientsNum(types: seq<ClientType>): nat
    requires |types| == TYPES
  {
    STATIC_IDS + ConfigurableBefore(types, TYPES)
  }

  /** Internal id of sub-client `j` of type `i`. */
  function Id(types: seq<ClientType>, i: nat, j: nat): nat
    requires i < |types|
  {
    if i < STATIC_TYPES then FirstId(i) + j else STATIC_IDS + ConfigurableBefore(types, i) + j
  }

  predicate IsClient(types: seq<ClientType>, i: nat, j: nat) {
    i < |types| && j < types[i].clientsNum
  }

  /** Ids follow the order of types and sub-clients. */
  predicate Precedes(i: nat, j: nat, i': nat, j': nat) {
    i < i' || (i == i' && j < j')
  }

  lemma {:induction false} ConfigurableGrows(types: seq<ClientType>, i: nat, i': nat)
    requires STATIC_TYPES <= i < i' <= |types|
    ensures ConfigurableBefore(types, i) + types[i].clientsNum <= ConfigurableBefore(types, i')
    decreases i'
  {
    if i + 1 < i' {
      ConfigurableGrows(types, i, i' - 1);
    }
  }

  /** No two sub-clients share an internal id. */
  lemma IdsFollowOrder(e: Enumeration, types: seq<ClientType>, i: nat, j: nat, i': nat, j': nat)
    requires TypesOk(e, types) && IsClient(types, i, j) && IsClient(types, i', j') && Precedes(i, j, i', j')
    ensures Id(types, i, j) < Id(types, i', j')
  {
    if STATIC_TYPES <= i < i' {
      ConfigurableGrows(types, i, i');
    }
  }

  lemma IdInRange(e: Enumeration, types: seq<ClientType>, i: nat, j: nat)
    requires TypesOk(e, types) && IsClient(types, i, j)
    ensures 0 < Id(types, i, j) < ClientsNum(types)
    ensures STATIC_TYPES <= i <==> STATIC_IDS <= Id(types, i, j)
  {
    if STATIC_TYPES <= i {
      ConfigurableGrows(types, i, TYPES);
    }
  }

  /** Every id from the first configurable one on belongs to a sub-client. */
  lemma {:induction false} IdsAreCovered(types: seq<ClientType>, n: nat, id: nat) returns (i: nat, j: nat)
    requires STATIC_TYPES <= n <= |types| && STATIC_IDS <= id < STATIC_IDS + ConfigurableBefore(types, n)
    ensures STATIC_TYPES <= i < n && IsClient(types, i, j) && Id(types, i, j) == id
  {
    i, j := n - 1, 0;
    if id < STATIC_IDS + ConfigurableBefore(types, n - 1) {
      i, j := IdsAreCovered(types, n - 1, id);
    } else {
      j := id - STATIC_IDS - ConfigurableBefore(types, n - 1);
    }
  }

  // ----- From external to internal ids -----

  /** The type that an external id past the static ones is of, counted from the first configurable one, and the
      number of the sub-client. */
  function TypeNumber(e: Enumeration, ext: nat): nat
    requires STATIC_IDS <= ext && e.signalsPerClient > 0
  {
    (ext - STATIC_IDS) / e.signalsPerClient
  }

  function SubClient(e: Enumeration, ext: nat): nat
    requires STATIC_IDS <= ext && e.signalsPerClient > 0
  {
    (ext - STATIC_IDS) % e.signalsPerClient
  }

  lemma PartsOfExt(e: Enumeration, i: nat, j: nat)
    requires STATIC_TYPES <= i && j < e.signalsPerClient
    ensures STATIC_IDS <= Ext(e, i, j)
    ensures TypeNumber(e, Ext(e, i, j)) == i - STATIC_TYPES && SubClient(e, Ext(e, i, j)) == j
  {
    RemainderIs(Ext(e, i, j) - STATIC_IDS, e.signalsPerClient, i - STATIC_TYPES, j);
  }

  /** The table of types ends where the ids of the last type do. */
  lemma TypesEnd(e: Enumeration, ext: nat)
    requires EnumerationOk(e) && STATIC_IDS <= ext
    ensures TypeNumber(e, ext) < CONFIGURABLE_TYPES <==> ext < Ext(e, TYPES, 0)
  {
    var x, s := ext - STATIC_IDS, e.signalsPerClient;
    assert x == s * (x / s) + x % s;
    MultipleIsFar(s, x / s - 7);
    assert s * (x / s - 7) == s * (x / s) - s * 7;
    MultipleIsFar(s, x / s - 8);
    assert s * (x / s - 8) == s * (x / s) - s * 8;
  }

  lemma ClientsHaveSmallNumbers(e: Enumeration, types: seq<ClientType>, i: nat, j: nat)
    requires EnumerationOk(e) && TypesOk(e, types) && IsClient(types, i, j)
    ensures j < e.signalsPerClient && (i < STATIC_TYPES ==> Ext(e, i, j) == Id(types, i, j) < STATIC_IDS)
    ensures STATIC_TYPES <= i ==> STATIC_IDS <= Ext(e, i, j)
  {
  }

  /** The answer for an external id: it has an internal one, or it has none, or the table of types was
      read past its end. */
  datatype IdPriv = Internal(id: nat) | Unknown | PastTypes

  /** `hw_fence_utils_get_client_id_priv`, for every id that registration lets through: sub-client `j` of
      type `i` gets its internal id, and is unknown exactly if the type has no such sub-client. Static
      ids are never unknown. Ids after those of the last type read past the table of types. */
  method GetClientIdPriv(e: Enumeration, types: seq<ClientType>, ext: nat) returns (r: IdPriv)
    requires EnumerationOk(e) && TypesOk(e, types) && ext < e.clientMax
    ensures ext < STATIC_IDS ==> r == Internal(ext)
    ensures forall i: nat, j: nat | STATIC_TYPES <= i < TYPES && j < e.signalsPerClient && ext == Ext(e, i, j) ::
              r == if IsClient(types, i, j) then Internal(Id(types, i, j)) else Unknown
    ensures forall i: nat, j: nat | IsClient(types, i, j) && ext == Ext(e, i, j) :: r == Internal(Id(types, i, j))
    ensures r.PastTypes? <==> Ext(e, TYPES, 0) <= ext
  {
    hide Ext;
    forall i: nat, j: nat | IsClient(types, i, j)
      ensures j < e.signalsPerClient && (i < STATIC_TYPES ==> Ext(e, i, j) == Id(types, i, j) < STATIC_IDS)
      ensures STATIC_TYPES <= i ==> STATIC_IDS <= Ext(e, i, j)
    {
      ClientsHaveSmallNumbers(e, types, i, j);
    }
    if ext < STATIC_IDS {
      forall i: nat, j: nat | STATIC_TYPES <= i ensures STATIC_IDS <= Ext(e, i, j) {
        ExtOfConfigurable(e, i, j);
      }
      StaticBeforeEnd(e);
      return Internal(ext);
    }
    hide TypeNumber, SubClient;
    var clientType := STATIC_TYPES + TypeNumber(e, ext);
    var offset := SubClient(e, ext);
    if clientType >= TYPES {
      TypesEnd(e, ext);
      forall i: nat, j: nat | IsClient(types, i, j) ensures Ext(e, i, j) < Ext(e, TYPES, 0) {
        ExtBelowEnd(e, types, i, j);
      }
      forall i: nat, j: nat | STATIC_TYPES <= i < TYPES && j < e.signalsPerClient
        ensures Ext(e, i, j) < Ext(e, TYPES, 0)
      {
        LaterTypesAreFar(e, i, j, TYPES, 0);
      }
      return PastTypes;
    }
    TypesEnd(e, ext);
    forall i: nat, j: nat | STATIC_TYPES <= i && j < e.signalsPerClient && ext == Ext(e, i, j)
      ensures i == clientType && j == offset
    {
      PartsOfExt(e, i, j);
    }
    if offset >= types[clientType].clientsNum {
      return Unknown;
    }
    var id := STATIC_IDS + offset;
    var i := STATIC_TYPES;
    while i < clientType
      invariant STATIC_TYPES <= i <= clientType
      invariant id == STATIC_IDS + offset + ConfigurableBefore(types, i)
    {
      id := id + types[i].clientsNum;
      i := i + 1;
    }
    r := Internal(id);
  }

  lemma StaticBeforeEnd(e: Enumeration)
    requires EnumerationOk(e)
    ensures STATIC_IDS < Ext(e, TYPES, 0)
  {
  }

  lemma ExtBelowEnd(e: Enumeration, types: seq<ClientType>, i: nat, j: nat)
    requires EnumerationOk(e) && TypesOk(e, types) && IsClient(types, i, j)
    ensures Ext(e, i, j) < Ext(e, TYPES, 0)
  {
    ClientsHaveSmallNumbers(e, types, i, j);
    if STATIC_TYPES <= i {
      LaterTypesAreFar(e, i, j, TYPES, 0);
    }
  }

  lemma ExtOfConfigurable(e: Enumeration, i: nat, j: nat)
    requires STATIC_TYPES <= i
    ensures STATIC_IDS <= Ext(e, i, j)
  {
  }

  /** Distinct sub-clients have distinct external ids, too. */
  lemma ExtsFollowOrder(e: Enumeration, types: seq<ClientType>, i: nat, j: nat, i': nat, j': nat)
    requires EnumerationOk(e) && TypesOk(e, types)
    requires IsClient(types, i, j) && IsClient(types, i', j') && Precedes(i, j, i', j')
    ensures Ext(e, i, j) < Ext(e, i', j') < Ext(e, TYPES, 0)
  {
    ExtBelowEnd(e, types, i', j');
    ClientsHaveSmallNumbers(e, types, i, j);
    ClientsHaveSmallNumbers(e, types, i', j');
    if i < i' {
      if i' < STATIC_TYPES {
        IdsFollowOrder(e, types, i, j, i', j');
      } else if STATIC_TYPES <= i {
        LaterTypesAreFar(e, i, j, i', j');
      }
    }
  }

  lemma LaterTypesAreFar(e: Enumeration, i: nat, j: nat, i': nat, j': nat)
    requires STATIC_TYPES <= i < i' && j < e.signalsPerClient
    ensures Ext(e, i, j) < Ext(e, i', j')
  {
    var s := e.signalsPerClient;
    MultipleIsFar(s, i' - i);
    assert s * (i' - i) == (i' - STATIC_TYPES) * s - (i - STATIC_TYPES) * s;
  }

  // ----- The ipc table -----

  datatype IpcMap = IpcMap(virtId: int, physId: int, signalId: int, updateRxq: bool, sendIpc: bool)

  const NO_IPC: IpcMap := IpcMap(0, 0, 0, false, false)

  /** `_hw_fence_ipcc_init_map_with_configurable_clients`: static clients keep their mapping, each
      sub-client has its type's with its own number as signal, at its internal id. The check for too
      many clients fires exactly if the number given is too small. */
  method InitIpcMap(types: seq<ClientType>, clientsNum: nat, base: seq<IpcMap>) returns (ok: bool, table: array<IpcMap>)
    requires |types| == TYPES && |base| == STATIC_IDS + CONFIGURABLE_TYPES && STATIC_IDS <= clientsNum
    ensures fresh(table) && table.Length == clientsNum
    ensures ok <==> ClientsNum(types) <= clientsNum
    ensures table[..STATIC_IDS] == base[..STATIC_IDS]
    ensures ok ==> forall i: nat, j: nat | STATIC_TYPES <= i && IsClient(types, i, j) ::
                     && Id(types, i, j) < clientsNum
                     && table[Id(types, i, j)] == base[STATIC_IDS + i - STATIC_TYPES].(signalId := j)
  {
    table := new IpcMap[clientsNum](_ => NO_IPC);
    forall k | 0 <= k < STATIC_IDS {
      table[k] := base[k];
    }
    var mapIdx := STATIC_IDS;
    var i := 0;
    while i < CONFIGURABLE_TYPES
      invariant 0 <= i <= CONFIGURABLE_TYPES
      invariant mapIdx == STATIC_IDS + ConfigurableBefore(types, STATIC_TYPES + i) <= clientsNum
      invariant table[..STATIC_IDS] == base[..STATIC_IDS]
      invariant forall a: nat, b: nat | STATIC_TYPES <= a < STATIC_TYPES + i && IsClient(types, a, b) ::
                  && Id(types, a, b) < mapIdx
                  && table[Id(types, a, b)] == base[STATIC_IDS + a - STATIC_TYPES].(signalId := b)
    {
      var t := STATIC_TYPES + i;
      var j := 0;
      while j < types[t].clientsNum
        invariant 0 <= j <= types[t].clientsNum
        invariant mapIdx == Id(types, t, j) <= clientsNum
        invariant table[..STATIC_IDS] == base[..STATIC_IDS]
        invariant forall a: nat, b: nat | STATIC_TYPES <= a <= t && IsClient(types, a, b) && (a < t || b < j) ::
                    && Id(types, a, b) < mapIdx
                    && table[Id(types, a, b)] == base[STATIC_IDS + a - STATIC_TYPES].(signalId := b)
      {
        if mapIdx >= clientsNum {
          ConfigurableGrows(types, t, TYPES);
          return false, table;
        }
        table[mapIdx] := base[STATIC_IDS + i].(signalId := j);
        mapIdx := mapIdx + 1;
        j := j + 1;
      }
      i := i + 1;
    }
    ok := true;
  }

  // ----- Clients with a receive queue -----

  predicate HasRxClients(types: seq<ClientType>, i: nat)
    requires i < |types|
  {
    types[i].queuesNum == CLIENT_QUEUES && types[i].clientsNum > 0
  }

  /** The driver's count of ids up to the last client with a receive queue (`rxq_clients_num`), after
      the first `k` types. It is also the number of locks. */
  function RxqClients(types: seq<ClientType>, k: nat): nat
    requires k <= |types|
  {
    if k <= MIN_RXQ_TYPES then MIN_RXQ_CLIENTS
    else RxqClients(types, k - 1) + if types[k - 1].queuesNum == CLIENT_QUEUES then types[k - 1].clientsNum else 0
  }

  /** Highest id of the first `k` types; ids of absent static clients are not reused. */
  function HighestId(types: seq<ClientType>, k: nat): nat
    requires k <= |types|
  {
    if k <= MIN_RXQ_TYPES then MIN_RXQ_CLIENTS
    else HighestId(types, k - 1) + if k <= STATIC_TYPES then 1 else types[k - 1].clientsNum
  }

  /** Every id of this type is a client with a receive queue. */
  predicate AllRx(types: seq<ClientType>, i: nat)
    requires i < |types|
  {
    if i < STATIC_TYPES then types[i].queuesNum == CLIENT_QUEUES && types[i].clientsNum == 1
    else types[i].queuesNum == CLIENT_QUEUES || types[i].clientsNum == 0
  }

  /** From the fourth type on, types with receive queues come before all others. */
  predicate RxTypesFirst(types: seq<ClientType>) {
    forall u, t | MIN_RXQ_TYPES <= u < t < |types| && HasRxClients(types, t) :: AllRx(types, u)
  }

  lemma {:induction false} RxqAtMostHighest(e: Enumeration, types: seq<ClientType>, k: nat)
    requires TypesOk(e, types) && k <= TYPES
    ensures RxqClients(types, k) <= HighestId(types, k)
    ensures RxqClients(types, k) == HighestId(types, k) <==> forall u | MIN_RXQ_TYPES <= u < k :: AllRx(types, u)
    decreases k
  {
    if k > MIN_RXQ_TYPES {
      RxqAtMostHighest(e, types, k - 1);
      assert types[k - 1].clientsNum <= MaxClients(k - 1);
      assert AllRx(types, k - 1) <==>
             RxqClients(types, k) - RxqClients(types, k - 1) == HighestId(types, k) - HighestId(types, k - 1);
      assert (forall u | MIN_RXQ_TYPES <= u < k :: AllRx(types, u))
        <==> AllRx(types, k - 1) && forall u | MIN_RXQ_TYPES <= u < k - 1 :: AllRx(types, u);
    }
  }

  lemma {:induction false} RxqGrows(types: seq<ClientType>, k: nat, m: nat)
    requires k <= m <= |types|
    ensures RxqClients(types, k) <= RxqClients(types, m)
    ensures (forall t | k <= t < m && MIN_RXQ_TYPES <= t :: !HasRxClients(types, t))
            ==> RxqClients(types, k) == RxqClients(types, m)
    decreases m
  {
    if k < m {
      RxqGrows(types, k, m - 1);
      assert m > MIN_RXQ_TYPES && !HasRxClients(types, m - 1) ==> RxqClients(types, m) == RxqClients(types, m - 1);
    }
  }

  lemma {:induction false} IdBelowHighest(e: Enumeration, types: seq<ClientType>, i: nat, j: nat)
    requires TypesOk(e, types) && IsClient(types, i, j)
    ensures MIN_RXQ_TYPES <= i ==> Id(types, i, j) == HighestId(types, i) + j + 1
    ensures i < MIN_RXQ_TYPES ==> Id(types, i, j) <= MIN_RXQ_CLIENTS
  {
    if STATIC_TYPES <= i {
      HighestIs(types, i);
    }
  }

  lemma {:induction false} HighestIs(types: seq<ClientType>, k: nat)
    requires STATIC_TYPES <= k <= |types|
    ensures HighestId(types, k) + 1 == STATIC_IDS + ConfigurableBefore(types, k)
    decreases k
  {
    if k > STATIC_TYPES {
      HighestIs(types, k - 1);
    } else {
      assert HighestId(types, 4) == 15;
    }
  }

  lemma {:induction false} LastRxType(types: seq<ClientType>, t: nat, n: nat) returns (last: nat)
    requires t < n <= |types| && HasRxClients(types, t)
    ensures t <= last < n && HasRxClients(types, last)
    ensures forall i | last < i < n :: !HasRxClients(types, i)
    decreases n
  {
    if HasRxClients(types, n - 1) {
      last := n - 1;
    } else {
      last := LastRxType(types, t, n - 1);
    }
  }

  /** A client with a receive queue has a lock, and is taken for one that may wait, exactly if its id is
      at most the driver's count. That holds of all of them exactly if from the fourth type on, no
      client without a receive queue (and no absent static client) precedes one with. */
  lemma RxClientsCountedIff(e: Enumeration, types: seq<ClientType>)
    requires TypesOk(e, types)
    ensures (forall i: nat, j: nat | IsClient(types, i, j) && types[i].queuesNum == CLIENT_QUEUES ::
               Id(types, i, j) <= RxqClients(types, TYPES))
            <==> RxTypesFirst(types)
  {
    if RxTypesFirst(types) {
      forall i: nat, j: nat | IsClient(types, i, j) && types[i].queuesNum == CLIENT_QUEUES
        ensures Id(types, i, j) <= RxqClients(types, TYPES)
      {
        RxClientCounted(e, types, i, j);
      }
    } else {
      var i, j := UncountedClient(e, types);
    }
  }

  lemma RxClientCounted(e: Enumeration, types: seq<ClientType>, i: nat, j: nat)
    requires TypesOk(e, types) && RxTypesFirst(types)
    requires IsClient(types, i, j) && types[i].queuesNum == CLIENT_QUEUES
    ensures Id(types, i, j) <= RxqClients(types, TYPES)
  {
    IdBelowHighest(e, types, i, j);
    if i < MIN_RXQ_TYPES {
      RxqGrows(types, 0, TYPES);
    } else {
      assert HasRxClients(types, i);
      RxqAtMostHighest(e, types, i);
      RxqGrows(types, i + 1, TYPES);
    }
  }

  lemma UncountedClient(e: Enumeration, types: seq<ClientType>) returns (i: nat, j: nat)
    requires TypesOk(e, types) && !RxTypesFirst(types)
    ensures IsClient(types, i, j) && types[i].queuesNum == CLIENT_QUEUES
    ensures Id(types, i, j) > RxqClients(types, TYPES)
  {
    var u, t :| MIN_RXQ_TYPES <= u < t < |types| && HasRxClients(types, t) && !AllRx(types, u);
    i := LastRxType(types, t, TYPES);
    j := types[i].clientsNum - 1;
    IdBelowHighest(e, types, i, j);
    RxqAtMostHighest(e, types, i);
    RxqGrows(types, i + 1, TYPES);
  }
}
