/**
  Headers, their validation states, the best-chain record and the contract of
  the chain store, as `ChainState` sees them.
 */
module ChainTypes {
  import opened Prelude

  type BlockHash = nat

  /** A block header. The double SHA-256 of its contents is carried as `hash`. */
  datatype Header = Header(hash: BlockHash, prev: BlockHash, bits: nat, time: nat, version: int)

  /** A block with everything its validation needs; `payload` stands for
      transactions, inclusion proof and deleted leaves. */
  datatype Block = Block(header: Header, payload: nat)

  /** The Utreexo accumulator. */
  datatype Stump = Stump(leaves: nat, roots: seq<nat>)

  const EMPTY_STUMP := Stump(0, [])

  datatype DiskBlockHeader =
    | FullyValid(header: Header, height: nat)
    | AssumedValid(header: Header, height: nat)
    | Orphan(header: Header)
    | HeadersOnly(header: Header, height: nat)
    | InFork(header: Header, height: nat)
    | InvalidChain(header: Header)
  {
    function Height(): Option<nat> {
      if Orphan? || InvalidChain? then None else Some(height)
    }

    /** States that belong to the best chain and are kept in its height slots. */
    predicate MainChain() {
      FullyValid? || AssumedValid? || HeadersOnly?
    }
  }

  datatype BestChain = BestChain(bestBlock: BlockHash, depth: nat, validationIndex: BlockHash,
                                 alternativeTips: seq<BlockHash>)

  /** One height of the header file: the header written there, its hash, and the
      accumulator saved for it, if any. */
  datatype Slot = Slot(disk: DiskBlockHeader, hash: BlockHash, roots: Option<Stump>)

  /** The store behind `ChainState`: headers by hash and slots by height. */
  datatype Store = Store(headers: map<BlockHash, DiskBlockHeader>, slots: map<nat, Slot>) {

    /** Saving a best-chain header also takes over the slot of its height and
        forgets the accumulator saved there. */
    function SaveHeader(d: DiskBlockHeader): Store {
      Store(headers[d.header.hash := d],
            if d.MainChain() then slots[d.height := Slot(d, d.header.hash, None)] else slots)
    }

    function UpdateBlockIndex(height: nat, hash: BlockHash): Store {
      if height in slots then Store(headers, slots[height := slots[height].(hash := hash)]) else this
    }

    function SaveRoots(roots: Stump, height: nat): Store {
      if height in slots then Store(headers, slots[height := slots[height].(roots := Some(roots))]) else this
    }

    function GetBlockHash(height: nat): Option<BlockHash> {
      if height in slots then Some(slots[height].hash) else None
    }

    function LoadRoots(height: nat): Option<Stump> {
      if height in slots then slots[height].roots else None
    }
  }

  /** A store that holds genesis only. */
  function NewStore(g: Header): Store {
    Store(map[], map[]).SaveHeader(FullyValid(g, 0)).UpdateBlockIndex(0, g.hash)
  }

  datatype Error =
    | BlockNotPresent
    | InvalidTip
    | BadValidationIndex
    | OrphanOrInvalidBlock
    | NotEnoughPow
    | BlockExtendsAnOrphanChain
    | BadDiffBits
    | Bip94TimeWarp
    | BadVersion
    | ChainWorkOverflow
    | BlockDoesntExtendTip
    | InvalidBlock

  const RETARGET_INTERVAL := 2016

  /** The first block of a retarget period. */
  predicate RetargetHeight(n: nat) {
    n % RETARGET_INTERVAL == 0
  }

  const WORK_LIMIT: nat := 0x1_0000000000000000_0000000000000000_0000000000000000_0000000000000000

  /** Consensus rules this model does not look inside: proof of work, compact
      targets, the retarget formula and the accumulator update. */
  datatype Params = Params(
    genesis: Header,
    allowMinDifficulty: bool,
    noRetargeting: bool,
    enforceBip94: bool,
    targetSpacing: nat,
    maxTarget: nat,
    powOk: Header -> bool,
    work: nat -> nat,
    target: nat -> nat,
    compact: nat -> nat,
    calcNextWork: (Header, Header) -> nat,
    bip94TimeOk: (Header, Header) -> bool,
    minVersion: nat -> int,
    updateAcc: (Stump, Block, nat) -> Option<Stump>)
  {
    /** Compact bits denote targets: encoding a decoded encoding changes nothing,
        and genesis is encoded that way. */
    ghost predicate CompactOk() {
      && (forall t: nat {:trigger compact(target(compact(t)))} :: compact(target(compact(t))) == compact(t))
      && compact(target(genesis.bits)) == genesis.bits
    }
  }
}
