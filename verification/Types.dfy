/** The values that every pallet of the name service shares: nodes, accounts, records, results. */
module Types {

  newtype byte = x: int | 0 <= x < 256

  type Bytes = seq<byte>

  /** An account is known only by its identity. */
  datatype AccountId = AccountId(key: nat)

  /** A namehash, read without collisions. `Zero` is the all-zero hash, `Base` the namehash of
      the native top-level domain and `Child(p, l)` the hash of label `l` under node `p`, where `l`
      is already in lower case. */
  datatype Node = Zero | Base | Child(parent: Node, lab: Bytes)

  /** A name registered directly under the top-level domain. */
  predicate IsTop(n: Node) {
    n.Child? && n.parent == Base
  }

  datatype Option<+T> = None | Some(value: T)

  datatype Error =
    | BadOrigin | TimeWentBack | Overflow | CurrencyError
      // registry and NFT
    | NoPermission | NotExist | CapacityNotEnough | BanBurnBaseNode | OfficialNotInitiated | InvalidName
    | CannotOwnSubnameUnderOwnDomain | SubnameAlreadyExists | SubnameNotFound | SubnameNotOffered
    | SubnameNotActive | NotSubnameTarget | NotSubnameOfferer | SubnameDepthExceeded | TargetAlreadyOwnsName
    | TokenNotFound
      // registrar
    | NotOwned | Occupied | NotExistOrOccupied | Frozen | ParseLabelFailed | LabelInvalid | NotUseable
    | NotRenewable | RegistrarClosed | AlreadyHasCanonicalName | AlreadyHoldsSubdomain | NoCanonicalName
    | NameAlreadyOffered | OfferedNameNotFound | NotOfferedNameRecipient
      // marketplace
    | AlreadyListed | NotListed | ListingExpired | SellerNoLongerOwns | ExpiryNotInFuture | BuyerIsSeller
    | BuyerIsRecipient | SellerIsRecipient
      // resolvers
    | InvalidPermission | Ss58RecordProtected
      // auctions
    | NameHasRegistered | AuctionEnded | BidNotEnough

  datatype Result<+T> = Ok(value: T) | Err(error: Error) {
    predicate IsFailure() {
      Err?
    }

    function PropagateFailure<U>(): Result<U>
      requires Err?
    {
      Err(error)
    }

    function Extract(): T
      requires Ok?
    {
      value
    }
  }

  /** A failed `ensure!` carries the error the extrinsic returns. */
  datatype Check = Pass | Fail(error: Error) {
    predicate IsFailure() {
      Fail?
    }

    function PropagateFailure<U>(): Result<U>
      requires Fail?
    {
      Err(error)
    }
  }

  function Ensure(condition: bool, error: Error): Check {
    if condition then Pass else Fail(error)
  }

  /** An optional value, or the error to report when it is absent. */
  function OkOr<T>(o: Option<T>, error: Error): Result<T> {
    match o
    case None => Err(error)
    case Some(v) => Ok(v)
  }

  function Lookup<K, V>(m: map<K, V>, k: K): Option<V> {
    if k in m then Some(m[k]) else None
  }

  const MAX_U64: nat := 0xffff_ffff_ffff_ffff
  const MAX_U128: nat := 0xffff_ffff_ffff_ffff_ffff_ffff_ffff_ffff

  /** The constants of the runtime configuration. */
  datatype Config = Config(grace: nat, maxDuration: nat, capacity: nat, feeBps: nat, existential: nat, open: bool)

  /** What the block author and the manager decide: the clock, the block and the price table. */
  datatype Env = Env(now: nat, block: nat, parentHash: int, prices: seq<nat>)

  datatype SubnameState = Offered | Active | Rejected

  /** A delegation of a subname. `spelling` is the label as the offerer wrote it. */
  datatype SubnameRecord = SubnameRecord(parent: Node, spelling: Bytes, target: AccountId, state: SubnameState)

  /** A top-level name bought as a gift and not yet accepted. */
  datatype OfferedName = OfferedName(buyer: AccountId, recipient: AccountId)

  datatype Listing = Listing(seller: AccountId, price: nat, expiresAt: nat)

  /** Record types. The sixteen that a lookup treats specially are named. */
  datatype RecordType =
    | SS58 | ORIGIN | ANY | AXFR | IXFR | OPT | TSIG | SIG | RRSIG | NSEC | NSEC3 | NSEC3PARAM
    | DNSKEY | CDNSKEY | CDS | DS | Plain(code: nat)

  type TextKind = nat

  /** Stored bytes: the encoding of an account, a block hash, or bytes the owner chose.
      The first two are 32 bytes long. */
  datatype Content = AccountBytes(account: AccountId) | HashBytes(hash: int) | UserBytes(bytes: Bytes)

  predicate IsEmpty(c: Content) {
    c.UserBytes? && c.bytes == []
  }

  /** The events that report a burned fee. */
  datatype Event =
    | NameRegistered(node: Node, owner: AccountId, expire: nat, fee: nat)
    | NameRenewed(node: Node, owner: AccountId, expire: nat, fee: nat)
    | Sold(node: Node, seller: AccountId, buyer: AccountId, price: nat, fee: nat)
    | NameBoughtForRecipient(node: Node, seller: AccountId, buyer: AccountId, recipient: AccountId, price: nat,
                             fee: nat)

  lemma SubsetSize<T>(a: set<T>, b: set<T>)
    requires a <= b
    ensures |a| <= |b|
  {
    assert b == a + (b - a);
  }
}
