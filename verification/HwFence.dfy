/** The entry of the global fence table that the driver shares with the fence controller
    (`struct msm_hw_fence`), with the constants that its fields depend on. */
module HwFences {

  const U32_LIMIT: int := 0x1_0000_0000
  const U64_LIMIT: int := 0x1_0000_0000_0000_0000

  type u32 = x: int | 0 <= x < U32_LIMIT
  type u64 = x: int | 0 <= x < U64_LIMIT

  datatype Option<T> = None | Some(value: T)

  function WrapU32(x: int): u32 {
    x % U32_LIMIT
  }

  function WrapU64(x: int): u64 {
    x % U64_LIMIT
  }

  /** Number of entries in a parent list. */
  const MAX_JOIN_PARENTS: nat := 3

  /** Parent-list entry that names no fence. */
  const INVALID_PARENT: u64 := U64_LIMIT - 1

  /** Allocator recorded in every join fence; no registered client has this id. */
  const JOIN_CLIENT_ID: u32 := U32_LIMIT - 1

  /** Client ids as the ipc tables number them; id 0 is the control queue. */
  const CLIENT_CTX0: u32 := 1
  const CLIENT_VAL0: u32 := 8
  const CLIENT_VAL1: u32 := 9
  const CLIENT_IPE: u32 := 15
  const CLIENT_VPU: u32 := 16

  /** Number of clients that may attach data to a wait, and the id meaning "none". */
  const CLIENTS_WITH_DATA: nat := 5

  /** The slot of a client in `client_data`, or CLIENTS_WITH_DATA. */
  function ClientDataId(client: u32): nat {
    if client == CLIENT_CTX0 then 0
    else if client == CLIENT_IPE then 1
    else if client == CLIENT_VPU then 2
    else if client == CLIENT_VAL0 then 3
    else if client == CLIENT_VAL1 then 4
    else CLIENTS_WITH_DATA
  }

  /** Five clients have a slot for data, each its own. */
  lemma DataSlotsAreTheirs(a: u32, b: u32)
    ensures ClientDataId(a) < CLIENTS_WITH_DATA <==> a in {CLIENT_CTX0, CLIENT_IPE, CLIENT_VPU, CLIENT_VAL0, CLIENT_VAL1}
    ensures ClientDataId(a) == ClientDataId(b) < CLIENTS_WITH_DATA ==> a == b
  {
  }

  /** Ids that have a bit in the 64-bit wait mask. */
  type waitId = x: int | 0 <= x < 64

  /** A dma-fence's identity: its context and sequence number. */
  datatype Key = Key(ctx: u64, seqno: u64)

  /** The key that cleaned (and freshly zeroed) slots carry. */
  const FREE_KEY: Key := Key(0, 0)

  type ParentList = s: seq<u64> | |s| == MAX_JOIN_PARENTS
    witness [INVALID_PARENT, INVALID_PARENT, INVALID_PARENT]

  type ClientData = s: seq<u64> | |s| == CLIENTS_WITH_DATA
    witness [0, 0, 0, 0, 0]

  /** One slot of the table. `signaled` is bit 0 of `flags`, the only bit in use; the wait mask is
      the set of client ids whose bit is on. The inter-processor lock word is modelled on its own. */
  datatype HwFence = HwFence(
    valid: bool,
    key: Key,
    waitMask: set<u32>,
    allocator: u32,
    signaled: bool,
    parents: ParentList,
    parentsCnt: u32,
    pendingChildCnt: u32,
    clientData: ClientData)

  /** What `_cleanup_hw_fence` and `_unreserve_hw_fence` leave behind. */
  const CLEAN_FENCE: HwFence := HwFence(false, FREE_KEY, {}, 0, false,
                                        [INVALID_PARENT, INVALID_PARENT, INVALID_PARENT], 0, 0,
                                        [0, 0, 0, 0, 0])

  /** The carved-out memory is zeroed before first use, parent lists included. */
  const ZERO_FENCE: HwFence := CLEAN_FENCE.(parents := [0, 0, 0])

  /** A fence just reserved for a key. */
  function Reserved(k: Key, client: u32, pending: u32): HwFence {
    CLEAN_FENCE.(valid := true, key := k, allocator := client, pendingChildCnt := pending)
  }
}
