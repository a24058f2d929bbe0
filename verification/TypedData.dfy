/** The hashes that senders and receivers sign: typed data, hashed field by field. */
module TypedData {
  import opened Wrappers
  import opened Bytes
  import opened Packing

  /** keccak256, of which only the length of the result is known. */
  type Hash = seq<byte> -> seq<byte>

  ghost predicate IsHash(keccak: Hash) { forall x :: |keccak(x)| == 32 }

  const ID_TYPE: ascii := "string message_id"
  const RECEIVER_TYPE: ascii := "address receiver"
  const SENDER_TYPE: ascii := "address sender"
  const BLOCK_TYPE: ascii := "uint32 block_created"
  const BALANCE_TYPE: ascii := "uint192 balance"
  const CONTRACT_TYPE: ascii := "address contract"

  const BALANCE_SCHEMA := [ID_TYPE, RECEIVER_TYPE, BLOCK_TYPE, BALANCE_TYPE, CONTRACT_TYPE]
  const CLOSING_SCHEMA := [ID_TYPE, SENDER_TYPE, BLOCK_TYPE, BALANCE_TYPE, CONTRACT_TYPE]

  function Texts(schema: seq<ascii>): seq<Arg> {
    seq(|schema|, i requires 0 <= i < |schema| => TextArg(schema[i]))
  }

  function HashPacked(keccak: Hash, args: seq<Arg>): Option<seq<byte>> {
    match Packed(args)
    case Some(bytes) => Some(keccak(bytes))
    case None => None
  }

  /** The hash of the hashes of the schema and of the data. */
  function TypedMessage(keccak: Hash, schema: seq<ascii>, data: seq<Arg>): Option<seq<byte>> {
    match (HashPacked(keccak, Texts(schema)), HashPacked(keccak, data))
    case (Some(s), Some(d)) => HashPacked(keccak, [BytesArg(s), BytesArg(d)])
    case _ => None
  }

  function BalanceHash(keccak: Hash, receiver: address, block: int, balance: int, contract: address): Option<seq<byte>> {
    TypedMessage(keccak, BALANCE_SCHEMA, BalanceData(receiver, block, balance, contract))
  }

  function ClosingHash(keccak: Hash, sender: address, block: int, balance: int, contract: address): Option<seq<byte>> {
    TypedMessage(keccak, CLOSING_SCHEMA, ClosingData(sender, block, balance, contract))
  }

  /** Two hashes are hashed as their concatenation. */
  lemma TwoHashes(a: seq<byte>, b: seq<byte>)
    ensures Packed([BytesArg(a), BytesArg(b)]) == Some(a + b)
  {
    assert [] + [BytesArg(a)] == [BytesArg(a)] && [BytesArg(a)] + [BytesArg(b)] == [BytesArg(a), BytesArg(b)];
    PackedSnoc([], BytesArg(a));
    assert [] + a == a;
    PackedSnoc([BytesArg(a)], BytesArg(b));
  }

  /** The bytes of a schema: its texts one after the other. */
  function SchemaBytes(schema: seq<ascii>): seq<byte> {
    if schema == [] then [] else SchemaBytes(schema[..|schema| - 1]) + Encode(schema[|schema| - 1])
  }

  lemma {:induction false} SchemaIsPacked(schema: seq<ascii>)
    requires forall s :: s in schema ==> !Is0xPrefixed(s)
    ensures Packed(Texts(schema)) == Some(SchemaBytes(schema))
  {
    if schema != [] {
      var before, last := schema[..|schema| - 1], schema[|schema| - 1];
      assert forall s :: s in before ==> s in schema;
      SchemaIsPacked(before);
      assert Texts(schema) == Texts(before) + [TextArg(last)];
      PackedSnoc(Texts(before), TextArg(last));
    }
  }

  /** What is hashed for a schema and data. */
  function Outer(keccak: Hash, schema: seq<ascii>, data: seq<byte>): seq<byte> {
    keccak(SchemaBytes(schema)) + keccak(data)
  }

  lemma TypedMessageIs(keccak: Hash, schema: seq<ascii>, data: seq<Arg>, bytes: seq<byte>)
    requires Packed(data) == Some(bytes) && forall s :: s in schema ==> !Is0xPrefixed(s)
    ensures TypedMessage(keccak, schema, data) == Some(keccak(Outer(keccak, schema, bytes)))
  {
    SchemaIsPacked(schema);
    TwoHashes(keccak(SchemaBytes(schema)), keccak(bytes));
  }

  ghost predicate Collide(keccak: Hash, a: seq<byte>, b: seq<byte>) { a != b && keccak(a) == keccak(b) }

  /** Equal outer hashes of data mean equal data, unless one of the two applications of the hash collides. */
  lemma OuterDetermines(keccak: Hash, schema: seq<ascii>, data: seq<byte>, schema': seq<ascii>, data': seq<byte>)
    requires IsHash(keccak) && keccak(Outer(keccak, schema, data)) == keccak(Outer(keccak, schema', data'))
    ensures || data == data' || Collide(keccak, data, data')
            || Collide(keccak, Outer(keccak, schema, data), Outer(keccak, schema', data'))
  {
    var o, o' := Outer(keccak, schema, data), Outer(keccak, schema', data');
    if o == o' {
      assert o[32..] == keccak(data) && o'[32..] == keccak(data');
    }
  }

  /** A signed balance determines its receiver, channel, amount and contract, unless the hash collides on it. */
  lemma BalanceHashDetermines(keccak: Hash, receiver: address, block: int, balance: int, contract: address,
                              receiver': address, block': int, balance': int, contract': address)
    requires IsHash(keccak) && Fits(block, balance) && Fits(block', balance')
    requires BalanceHash(keccak, receiver, block, balance, contract) ==
             BalanceHash(keccak, receiver', block', balance', contract')
    ensures var data := DataBytes(BALANCE_ID, receiver, block, balance, contract);
            var data' := DataBytes(BALANCE_ID, receiver', block', balance', contract');
            || (AddressBytes(receiver) == AddressBytes(receiver') && block == block' && balance == balance'
                && AddressBytes(contract) == AddressBytes(contract'))
            || Collide(keccak, data, data')
            || Collide(keccak, Outer(keccak, BALANCE_SCHEMA, data), Outer(keccak, BALANCE_SCHEMA, data'))
  {
    var data := DataBytes(BALANCE_ID, receiver, block, balance, contract);
    var data' := DataBytes(BALANCE_ID, receiver', block', balance', contract');
    DataIsPacked(BALANCE_ID, receiver, block, balance, contract);
    DataIsPacked(BALANCE_ID, receiver', block', balance', contract');
    TypedMessageIs(keccak, BALANCE_SCHEMA, BalanceData(receiver, block, balance, contract), data);
    TypedMessageIs(keccak, BALANCE_SCHEMA, BalanceData(receiver', block', balance', contract'), data');
    OuterDetermines(keccak, BALANCE_SCHEMA, data, BALANCE_SCHEMA, data');
    if data == data' {
      DataDetermines(BALANCE_ID, receiver, block, balance, contract, receiver', block', balance', contract');
    }
  }

  /** A signed balance is no agreement to close, unless the hash collides on them. */
  lemma BalanceHashIsNotClosing(keccak: Hash, receiver: address, block: int, balance: int, contract: address,
                                sender: address, block': int, balance': int, contract': address)
    requires IsHash(keccak) && Fits(block, balance) && Fits(block', balance')
    requires BalanceHash(keccak, receiver, block, balance, contract) ==
             ClosingHash(keccak, sender, block', balance', contract')
    ensures var data := DataBytes(BALANCE_ID, receiver, block, balance, contract);
            var data' := DataBytes(CLOSING_ID, sender, block', balance', contract');
            || Collide(keccak, data, data')
            || Collide(keccak, Outer(keccak, BALANCE_SCHEMA, data), Outer(keccak, CLOSING_SCHEMA, data'))
  {
    var data := DataBytes(BALANCE_ID, receiver, block, balance, contract);
    var data' := DataBytes(CLOSING_ID, sender, block', balance', contract');
    DataIsPacked(BALANCE_ID, receiver, block, balance, contract);
    DataIsPacked(CLOSING_ID, sender, block', balance', contract');
    TypedMessageIs(keccak, BALANCE_SCHEMA, BalanceData(receiver, block, balance, contract), data);
    TypedMessageIs(keccak, CLOSING_SCHEMA, ClosingData(sender, block', balance', contract'), data');
    OuterDetermines(keccak, BALANCE_SCHEMA, data, CLOSING_SCHEMA, data');
    assert |data| != |data'|;
  }
}
