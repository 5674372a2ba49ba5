/** A transaction request: what kind, who sends it to whom, with what payload and energy. */
module Transactions {
  import opened JavaTypes
  import opened Wrappers

  /** The intrinsic energy cost of any transaction. */
  const BASIC_COST: Int := 21_000
  /** Energy per zero data byte and per non-zero data byte. */
  const ZERO_BYTE_COST: nat := 4
  const NONZERO_BYTE_COST: nat := 64

  datatype TxType = Create | Call | BalanceTransfer | GarbageCollect

  /** The exceptions the constructor throws: a NullPointerException for each missing argument,
      an IllegalArgumentException for a CREATE that names a target. */
  datatype TxError = NullType | NullFrom | NullTo | ToGivenForCreate

  /** The constructor's argument checks, in the order it makes them. None means it accepts. */
  function CheckArguments(txType: Option<TxType>, from: Option<Bytes>, to: Option<Bytes>): (r: Option<TxError>)
    ensures r == None <==> txType.Some? && from.Some? && (to.None? <==> txType.value == Create)
    ensures txType.None? ==> r == Some(NullType)
    ensures txType.Some? && from.None? ==> r == Some(NullFrom)
    ensures r == Some(ToGivenForCreate) <==> txType == Some(Create) && from.Some? && to.Some?
    ensures r == Some(NullTo) <==> txType.Some? && txType.value != Create && from.Some? && to.None?
  {
    if txType.None? then Some(NullType)
    else if from.None? then Some(NullFrom)
    else if txType.value == Create then (if to.Some? then Some(ToGivenForCreate) else None)
    else if to.None? then Some(NullTo)
    else None
  }

  /** Energy charged for one data byte. */
  function ByteCost(b: Byte): nat
  {
    if b == 0 then ZERO_BYTE_COST else NONZERO_BYTE_COST
  }

  /** Energy charged for a payload, summed byte by byte in order. */
  function DataCost(data: Bytes): nat
  {
    if data == [] then 0 else DataCost(data[..|data| - 1]) + ByteCost(data[|data| - 1])
  }

  /** The number of zero bytes in a payload. */
  function ZeroCount(data: Bytes): (n: nat)
    ensures n <= |data|
  {
    if data == [] then 0 else ZeroCount(data[1..]) + (if data[0] == 0 then 1 else 0)
  }

  /** The exact basic cost of a transaction carrying `data`. */
  function BasicCost(data: Bytes): int
  {
    BASIC_COST + DataCost(data)
  }

  /** A payload costs 4 per zero byte and 64 per other byte, in whatever order they come. */
  lemma {:induction false} DataCostCounts(data: Bytes)
    ensures DataCost(data) == ZERO_BYTE_COST * ZeroCount(data) + NONZERO_BYTE_COST * (|data| - ZeroCount(data))
    decreases |data|
  {
    if data != [] {
      var n := |data|;
      var init := data[..n - 1];
      DataCostCounts(init);
      ZeroCountSnoc(init, data[n - 1]);
      assert init + [data[n - 1]] == data;
    }
  }

  lemma {:induction false} ZeroCountSnoc(s: Bytes, b: Byte)
    ensures ZeroCount(s + [b]) == ZeroCount(s) + (if b == 0 then 1 else 0)
    decreases |s|
  {
    if s == [] {
      assert [b][1..] == [];
    } else {
      assert (s + [b])[1..] == s[1..] + [b];
      ZeroCountSnoc(s[1..], b);
    }
  }

  /** The basic cost lies between 21000 + 4 per byte and 21000 + 64 per byte. */
  lemma BasicCostBounds(data: Bytes)
    ensures BASIC_COST + ZERO_BYTE_COST * |data| <= BasicCost(data) <= BASIC_COST + NONZERO_BYTE_COST * |data|
  {
    DataCostCounts(data);
  }

  /** An immutable request record; only the timestamp is set after construction. */
  class Transaction {
    const txType: TxType
    const from: Bytes
    /** None (null) exactly for CREATE. */
    const to: Option<Bytes>
    const nonce: Long
    const value: int
    var timestamp: Long
    const data: Bytes
    const energyLimit: Long
    const energyPrice: Long
    const transactionHash: Bytes

    /** The field-storing part of the constructor; callers go through New, which validates first. */
    constructor Init(txType: TxType, from: Bytes, to: Option<Bytes>, nonce: Long, value: int, data: Bytes,
                     energyLimit: Long, energyPrice: Long, transactionHash: Bytes)
      requires CheckArguments(Some(txType), Some(from), to) == None
      ensures this.txType == txType && this.from == from && this.to == to && this.nonce == nonce
      ensures this.value == value && this.data == data && this.energyLimit == energyLimit
      ensures this.energyPrice == energyPrice && this.transactionHash == transactionHash
      ensures this.timestamp == 0
      ensures to.None? <==> txType == Create
    {
      this.txType := txType;
      this.from := from;
      this.to := to;
      this.nonce := nonce;
      this.value := value;
      this.data := data;
      this.energyLimit := energyLimit;
      this.energyPrice := energyPrice;
      this.transactionHash := transactionHash;
      this.timestamp := 0;
    }

    /** The validating constructor: throws when the type or the sender is null, when a CREATE
        names a target, or when any other kind does not; otherwise stores every argument as given.
        The hash, random in one of the two Java constructors, is a parameter here. */
    static method New(txType: Option<TxType>, from: Option<Bytes>, to: Option<Bytes>, nonce: Long, value: int,
                      data: Bytes, energyLimit: Long, energyPrice: Long, transactionHash: Bytes)
      returns (r: Result<Transaction, TxError>)
      ensures r.Err? <==> CheckArguments(txType, from, to).Some?
      ensures r.Err? ==> r.error == CheckArguments(txType, from, to).value
      ensures r.Ok? ==> && Some(r.value.txType) == txType && Some(r.value.from) == from && r.value.to == to
                        && r.value.nonce == nonce && r.value.value == value && r.value.data == data
                        && r.value.energyLimit == energyLimit && r.value.energyPrice == energyPrice
                        && r.value.transactionHash == transactionHash && r.value.timestamp == 0
    {
      var failure := CheckArguments(txType, from, to);
      if failure.Some? {
        return Err(failure.value);
      }
      var tx := new Transaction.Init(txType.value, from.value, to, nonce, value, data, energyLimit, energyPrice, transactionHash);
      r := Ok(tx);
    }

    /** A deployment: type CREATE, no target. */
    static method NewCreate(from: Option<Bytes>, nonce: Long, value: int, data: Bytes, energyLimit: Long,
                            energyPrice: Long, transactionHash: Bytes)
      returns (r: Result<Transaction, TxError>)
      ensures r.Ok? <==> from.Some?
      ensures r.Err? ==> r.error == NullFrom
      ensures r.Ok? ==> && r.value.txType == Create && r.value.to == None && r.value.from == from.value
                        && r.value.nonce == nonce && r.value.value == value && r.value.data == data
                        && r.value.energyLimit == energyLimit && r.value.energyPrice == energyPrice
    {
      r := New(Some(Create), from, None, nonce, value, data, energyLimit, energyPrice, transactionHash);
    }

    /** An invocation of an existing DApp: both ends are required, the sender checked first. */
    static method NewCall(from: Option<Bytes>, to: Option<Bytes>, nonce: Long, value: int, data: Bytes,
                          energyLimit: Long, energyPrice: Long, transactionHash: Bytes)
      returns (r: Result<Transaction, TxError>)
      ensures r.Ok? <==> from.Some? && to.Some?
      ensures r.Err? ==> r.error == if from.None? then NullFrom else NullTo
      ensures r.Ok? ==> && r.value.txType == Call && r.value.to == to && r.value.from == from.value
                        && r.value.nonce == nonce && r.value.value == value && r.value.data == data
                        && r.value.energyLimit == energyLimit && r.value.energyPrice == energyPrice
    {
      r := New(Some(Call), from, to, nonce, value, data, energyLimit, energyPrice, transactionHash);
    }

    /** A plain value transfer: no payload and exactly the basic energy limit, which is then
        also its basic cost. */
    static method NewBalanceTransfer(from: Option<Bytes>, to: Option<Bytes>, nonce: Long, value: int,
                                     energyPrice: Long, transactionHash: Bytes)
      returns (r: Result<Transaction, TxError>)
      ensures r.Ok? <==> from.Some? && to.Some?
      ensures r.Err? ==> r.error == if from.None? then NullFrom else NullTo
      ensures r.Ok? ==> && r.value.txType == BalanceTransfer && r.value.to == to && r.value.from == from.value
                        && r.value.nonce == nonce && r.value.value == value && r.value.energyPrice == energyPrice
                        && r.value.data == [] && r.value.energyLimit == BASIC_COST
                        && BasicCost(r.value.data) == r.value.energyLimit
    {
      r := New(Some(BalanceTransfer), from, to, nonce, value, [], BASIC_COST, energyPrice, transactionHash);
    }

    /** A request to collect a DApp's storage, sent by the DApp to itself: sender and target are
        both `target`, no value, no payload. */
    static method NewGarbageCollect(target: Option<Bytes>, nonce: Long, energyLimit: Long, energyPrice: Long,
                                    transactionHash: Bytes)
      returns (r: Result<Transaction, TxError>)
      ensures r.Ok? <==> target.Some?
      ensures r.Err? ==> r.error == NullFrom
      ensures r.Ok? ==> && r.value.txType == GarbageCollect && r.value.from == target.value
                        && r.value.to == target && r.value.value == 0 && r.value.data == []
                        && r.value.nonce == nonce && r.value.energyLimit == energyLimit
                        && r.value.energyPrice == energyPrice
    {
      r := New(Some(GarbageCollect), target, target, nonce, 0, [], energyLimit, energyPrice, transactionHash);
    }

    /** The basic cost, accumulated in a Java `int`: exact unless the payload is over about 33 MB,
        where the sum wraps around. */
    method GetBasicCost() returns (cost: Int)
      ensures cost == ToInt(BasicCost(data))
      ensures BasicCost(data) < 0x8000_0000 ==> cost == BasicCost(data)
    {
      cost := BASIC_COST;
      for i := 0 to |data|
        invariant cost == ToInt(BASIC_COST + DataCost(data[..i]))
      {
        assert data[..i + 1][..i] == data[..i];
        ToIntAdd(BASIC_COST + DataCost(data[..i]), ByteCost(data[i]));
        cost := ToInt(cost + ByteCost(data[i]));
      }
      assert data[..|data|] == data;
      BasicCostBounds(data);
    }

    method SetTimestamp(t: Long)
      modifies this`timestamp
      ensures timestamp == t
    {
      timestamp := t;
    }
  }
}
