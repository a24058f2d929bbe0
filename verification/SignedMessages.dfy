/** The messages the token network contracts verify, as bytes. */
module SignedMessages {
  import opened Bytes

  type address = s: seq<byte> | |s| == 20 witness BigEndian(0, 20)
  type bytes32 = s: seq<byte> | |s| == 32 witness BigEndian(0, 32)
  type signature = s: seq<byte> | |s| == 65 witness BigEndian(0, 65)

  // MessageTypeId, except 1 and 2, which callers pass with a balance proof
  const WITHDRAW := 3
  const COOPERATIVE_SETTLE := 4
  const IOU := 5
  const MS_REWARD := 6

  datatype Message =
    | BalanceProof(network: address, chain: nat, channel: nat, msgType: nat, balanceHash: bytes32, nonce: nat,
                   additionalHash: bytes32)
    | BalanceProofMessage(network: address, chain: nat, channel: nat, msgType: nat, balanceHash: bytes32, nonce: nat,
                          additionalHash: bytes32, closing: signature)
    | CooperativeSettle(network: address, chain: nat, channel: nat, participant1: address, balance1: nat,
                        participant2: address, balance2: nat)
    | Withdraw(network: address, chain: nat, channel: nat, participant: address, amount: nat, until: nat)
    | RewardProof(service: address, chain: nat, network: address, participant: address, closing: signature, reward: nat)
    | Iou(oneToN: address, chain: nat, sender: address, receiver: address, amount: nat, until: nat)

  /** encode_single("uint256", v) accepts exactly these. */
  predicate IsUint256(v: nat) { v < Pow(256, 32) }

  /** All numbers fit. */
  predicate Encodable(m: Message) {
    && IsUint256(m.chain)
    && match m
       case BalanceProof(_, _, channel, msgType, _, nonce, _) => IsUint256(channel) && IsUint256(msgType) && IsUint256(nonce)
       case BalanceProofMessage(_, _, channel, msgType, _, nonce, _, _) =>
         IsUint256(channel) && IsUint256(msgType) && IsUint256(nonce)
       case CooperativeSettle(_, _, channel, _, balance1, _, balance2) =>
         IsUint256(channel) && IsUint256(balance1) && IsUint256(balance2)
       case Withdraw(_, _, channel, _, amount, until) => IsUint256(channel) && IsUint256(amount) && IsUint256(until)
       case RewardProof(_, _, _, _, _, reward) => IsUint256(reward)
       case Iou(_, _, _, _, amount, until) => IsUint256(amount) && IsUint256(until)
  }

  function Uint(v: nat): bytes32 { BigEndian(v, 32) }

  /** The contract a message is for. */
  function Contract(m: Message): address {
    match m
    case RewardProof(service, _, _, _, _, _) => service
    case Iou(oneToN, _, _, _, _, _) => oneToN
    case _ => m.network
  }

  function TypeOf(m: Message): nat {
    match m
    case BalanceProof(_, _, _, msgType, _, _, _) => msgType
    case BalanceProofMessage(_, _, _, msgType, _, _, _, _) => msgType
    case CooperativeSettle(_, _, _, _, _, _, _) => COOPERATIVE_SETTLE
    case Withdraw(_, _, _, _, _, _) => WITHDRAW
    case RewardProof(_, _, _, _, _, _) => MS_REWARD
    case Iou(_, _, _, _, _, _) => IOU
  }

  function PackBalanceProof(network: address, chain: nat, channel: nat, balanceHash: bytes32, nonce: nat,
                            additionalHash: bytes32, msgType: nat): seq<byte> {
    network + Uint(chain) + Uint(msgType) + Uint(channel) + balanceHash + Uint(nonce) + additionalHash
  }

  function Pack(m: Message): seq<byte> {
    match m
    case BalanceProof(network, chain, channel, msgType, balanceHash, nonce, additionalHash) =>
      PackBalanceProof(network, chain, channel, balanceHash, nonce, additionalHash, msgType)
    case BalanceProofMessage(network, chain, channel, msgType, balanceHash, nonce, additionalHash, closing) =>
      PackBalanceProof(network, chain, channel, balanceHash, nonce, additionalHash, msgType) + closing
    case CooperativeSettle(network, chain, channel, participant1, balance1, participant2, balance2) =>
      network + Uint(chain) + Uint(COOPERATIVE_SETTLE) + Uint(channel)
      + participant1 + Uint(balance1) + participant2 + Uint(balance2)
    case Withdraw(network, chain, channel, participant, amount, until) =>
      network + Uint(chain) + Uint(WITHDRAW) + Uint(channel) + participant + Uint(amount) + Uint(until)
    case RewardProof(service, chain, network, participant, closing, reward) =>
      service + Uint(chain) + Uint(MS_REWARD) + network + participant + closing + Uint(reward)
    case Iou(oneToN, chain, sender, receiver, amount, until) =>
      oneToN + Uint(chain) + Uint(IOU) + sender + receiver + Uint(amount) + Uint(until)
  }

  // Where everything is, byte by byte

  ghost predicate HeadIs(b: seq<byte>, contract: address, chain: nat, typeId: nat) {
    |b| >= 84 && b[..20] == contract && b[20..52] == Uint(chain) && b[52..84] == Uint(typeId)
  }

  lemma HeadRead(b: seq<byte>, contract: address, chain: nat, typeId: nat)
    requires |b| >= 84 && b[..84] == contract + Uint(chain) + Uint(typeId)
    ensures HeadIs(b, contract, chain, typeId)
  {
    var h := contract + Uint(chain) + Uint(typeId);
    assert h[..20] == contract && h[20..52] == Uint(chain) && h[52..84] == Uint(typeId);
    assert b[..20] == b[..84][..20] && b[20..52] == b[..84][20..52] && b[52..84] == b[..84][52..84];
  }

  lemma TwoRead(h: seq<byte>, a: seq<byte>, b: seq<byte>)
    ensures var s := h + a + b;
            && |s| == |h| + |a| + |b| && s[..|h|] == h
            && s[|h|..|h| + |a|] == a && s[|h| + |a|..] == b
  {
  }

  lemma FourRead(h: seq<byte>, a: seq<byte>, b: seq<byte>, c: seq<byte>, d: seq<byte>)
    ensures var s := h + a + b + c + d;
            var i := |h| + |a|;
            var j := i + |b|;
            && |s| == j + |c| + |d| && s[..|h|] == h
            && s[|h|..i] == a && s[i..j] == b && s[j..j + |c|] == c && s[j + |c|..] == d
  {
    TwoRead(h, a, b);
    TwoRead(h + a + b, c, d);
    var front, s := h + a + b, h + a + b + c + d;
    assert s[..|front|] == front;
    assert s[..|h|] == front[..|h|];
    assert s[|h|..|h| + |a|] == front[|h|..|h| + |a|];
    assert s[|h| + |a|..|front|] == front[|h| + |a|..];
  }

  lemma BalanceProofLayout(network: address, chain: nat, channel: nat, msgType: nat, balanceHash: bytes32, nonce: nat,
                           additionalHash: bytes32, closing: signature)
    ensures var b := Pack(BalanceProof(network, chain, channel, msgType, balanceHash, nonce, additionalHash));
            && |b| == 212 && HeadIs(b, network, chain, msgType)
            && b[84..116] == Uint(channel) && b[116..148] == balanceHash && b[148..180] == Uint(nonce)
            && b[180..] == additionalHash
            && Pack(BalanceProofMessage(network, chain, channel, msgType, balanceHash, nonce, additionalHash, closing))
               == b + closing
  {
    FourRead(network + Uint(chain) + Uint(msgType), Uint(channel), balanceHash, Uint(nonce), additionalHash);
    HeadRead(Pack(BalanceProof(network, chain, channel, msgType, balanceHash, nonce, additionalHash)), network, chain, msgType);
  }

  lemma CooperativeSettleLayout(network: address, chain: nat, channel: nat, participant1: address, balance1: nat,
                                participant2: address, balance2: nat)
    ensures var b := Pack(CooperativeSettle(network, chain, channel, participant1, balance1, participant2, balance2));
            && |b| == 220 && HeadIs(b, network, chain, 4)
            && b[84..116] == Uint(channel) && b[116..136] == participant1 && b[136..168] == Uint(balance1)
            && b[168..188] == participant2 && b[188..] == Uint(balance2)
  {
    var b := Pack(CooperativeSettle(network, chain, channel, participant1, balance1, participant2, balance2));
    var h := network + Uint(chain) + Uint(4);
    FourRead(h + Uint(channel), participant1, Uint(balance1), participant2, Uint(balance2));
    TwoRead(h, Uint(channel), []);
    assert h + Uint(channel) + [] == h + Uint(channel) == b[..116];
    assert b[..84] == b[..116][..84] && b[84..116] == b[..116][84..116];
    HeadRead(b, network, chain, 4);
  }

  lemma WithdrawLayout(network: address, chain: nat, channel: nat, participant: address, amount: nat, until: nat)
    ensures var b := Pack(Withdraw(network, chain, channel, participant, amount, until));
            && |b| == 200 && HeadIs(b, network, chain, 3)
            && b[84..116] == Uint(channel) && b[116..136] == participant && b[136..168] == Uint(amount)
            && b[168..] == Uint(until)
  {
    FourRead(network + Uint(chain) + Uint(3), Uint(channel), participant, Uint(amount), Uint(until));
    HeadRead(Pack(Withdraw(network, chain, channel, participant, amount, until)), network, chain, 3);
  }

  lemma RewardProofLayout(service: address, chain: nat, network: address, participant: address, closing: signature,
                          reward: nat)
    ensures var b := Pack(RewardProof(service, chain, network, participant, closing, reward));
            && |b| == 221 && HeadIs(b, service, chain, 6)
            && b[84..104] == network && b[104..124] == participant && b[124..189] == closing && b[189..] == Uint(reward)
  {
    FourRead(service + Uint(chain) + Uint(6), network, participant, closing, Uint(reward));
    HeadRead(Pack(RewardProof(service, chain, network, participant, closing, reward)), service, chain, 6);
  }

  lemma IouLayout(oneToN: address, chain: nat, sender: address, receiver: address, amount: nat, until: nat)
    ensures var b := Pack(Iou(oneToN, chain, sender, receiver, amount, until));
            && |b| == 188 && HeadIs(b, oneToN, chain, 5)
            && b[84..104] == sender && b[104..124] == receiver && b[124..156] == Uint(amount) && b[156..] == Uint(until)
  {
    FourRead(oneToN + Uint(chain) + Uint(5), sender, receiver, Uint(amount), Uint(until));
    HeadRead(Pack(Iou(oneToN, chain, sender, receiver, amount, until)), oneToN, chain, 5);
  }

  /** The widths of the fields after the contract, the chain and the type. */
  function Widths(m: Message): seq<nat> {
    match m
    case BalanceProof(_, _, _, _, _, _, _) => [32, 32, 32, 32]
    case BalanceProofMessage(_, _, _, _, _, _, _, _) => [32, 32, 32, 32, 65]
    case CooperativeSettle(_, _, _, _, _, _, _) => [32, 20, 32, 20, 32]
    case Withdraw(_, _, _, _, _, _) => [32, 20, 32, 32]
    case RewardProof(_, _, _, _, _, _) => [20, 20, 65, 32]
    case Iou(_, _, _, _, _, _) => [20, 20, 32, 32]
  }

  /** The fields in order, as bytes. */
  function Fields(m: Message): seq<seq<byte>> {
    match m
    case BalanceProof(_, _, channel, _, balanceHash, nonce, additionalHash) =>
      [Uint(channel), balanceHash, Uint(nonce), additionalHash]
    case BalanceProofMessage(_, _, channel, _, balanceHash, nonce, additionalHash, closing) =>
      [Uint(channel), balanceHash, Uint(nonce), additionalHash, closing]
    case CooperativeSettle(_, _, channel, participant1, balance1, participant2, balance2) =>
      [Uint(channel), participant1, Uint(balance1), participant2, Uint(balance2)]
    case Withdraw(_, _, channel, participant, amount, until) =>
      [Uint(channel), participant, Uint(amount), Uint(until)]
    case RewardProof(_, _, network, participant, closing, reward) =>
      [network, participant, closing, Uint(reward)]
    case Iou(_, _, sender, receiver, amount, until) =>
      [sender, receiver, Uint(amount), Uint(until)]
  }

  function Concat(fields: seq<seq<byte>>): seq<byte> {
    if fields == [] then [] else fields[0] + Concat(fields[1..])
  }

  function Total(widths: seq<nat>): nat {
    if widths == [] then 0 else widths[0] + Total(widths[1..])
  }

  ghost predicate HaveWidths(fields: seq<seq<byte>>, widths: seq<nat>) {
    |fields| == |widths| && forall i :: 0 <= i < |fields| ==> |fields[i]| == widths[i]
  }

  lemma ConcatFour(head: seq<byte>, a: seq<byte>, b: seq<byte>, c: seq<byte>, d: seq<byte>)
    ensures head + a + b + c + d == head + Concat([a, b, c, d])
  {
    assert [a, b, c, d][1..] == [b, c, d] && [b, c, d][1..] == [c, d] && [c, d][1..] == [d] && [d][1..] == [];
    assert Concat([d]) == d;
    assert Concat([c, d]) == c + d;
    assert Concat([b, c, d]) == b + (c + d);
  }

  lemma ConcatFive(head: seq<byte>, a: seq<byte>, b: seq<byte>, c: seq<byte>, d: seq<byte>, e: seq<byte>)
    ensures head + a + b + c + d + e == head + Concat([a, b, c, d, e])
  {
    assert [a, b, c, d, e][1..] == [b, c, d, e];
    ConcatFour(head + a, b, c, d, e);
    assert head + a + Concat([b, c, d, e]) == head + (a + Concat([b, c, d, e]));
  }

  /** Every packing is the contract, the chain, the type and the fields. */
  lemma PackIsConcat(m: Message)
    ensures Pack(m) == Contract(m) + Uint(m.chain) + Uint(TypeOf(m)) + Concat(Fields(m))
    ensures HaveWidths(Fields(m), Widths(m))
  {
    var f, head := Fields(m), Contract(m) + Uint(m.chain) + Uint(TypeOf(m));
    if |f| == 4 {
      ConcatFour(head, f[0], f[1], f[2], f[3]);
    } else {
      ConcatFive(head, f[0], f[1], f[2], f[3], f[4]);
    }
  }

  lemma {:induction false} ConcatLength(fields: seq<seq<byte>>, widths: seq<nat>)
    requires HaveWidths(fields, widths)
    ensures |Concat(fields)| == Total(widths)
  {
    if fields != [] {
      ConcatLength(fields[1..], widths[1..]);
    }
  }

  /** Fields of known widths can be read back from their concatenation. */
  lemma {:induction false} ConcatInjective(f: seq<seq<byte>>, g: seq<seq<byte>>, widths: seq<nat>)
    requires HaveWidths(f, widths) && HaveWidths(g, widths) && Concat(f) == Concat(g)
    ensures f == g
  {
    if f != [] {
      assert f[0] == Concat(f)[..widths[0]] && g[0] == Concat(g)[..widths[0]];
      assert Concat(f[1..]) == Concat(f)[widths[0]..] && Concat(g[1..]) == Concat(g)[widths[0]..];
      ConcatInjective(f[1..], g[1..], widths[1..]);
      assert f == [f[0]] + f[1..] && g == [g[0]] + g[1..];
    }
  }

  /** The type identifier sits at bytes 52 to 84 of every message, so messages of different types differ. */
  lemma TypeAtFixedPlace(m: Message)
    ensures |Pack(m)| >= 84 && Pack(m)[52..84] == Uint(TypeOf(m))
    ensures Pack(m)[..20] == Contract(m) && Pack(m)[20..52] == Uint(m.chain)
    ensures Pack(m)[84..] == Concat(Fields(m))
  {
    PackIsConcat(m);
  }

  lemma DifferentTypesDiffer(m: Message, m': Message)
    requires Encodable(m) && Encodable(m') && TypeOf(m) != TypeOf(m')
    ensures Pack(m) != Pack(m')
  {
    TypeAtFixedPlace(m);
    TypeAtFixedPlace(m');
    SmallTypesFit(m);
    SmallTypesFit(m');
    if Uint(TypeOf(m)) == Uint(TypeOf(m')) {
      BigEndianInjective(TypeOf(m), TypeOf(m'), 32);
    }
  }

  lemma SmallTypesFit(m: Message)
    requires Encodable(m)
    ensures IsUint256(TypeOf(m))
  {
    PowPositive(256, 31);
    assert Pow(256, 32) == 256 * Pow(256, 31);
  }

  /** Different kinds of messages have different lengths. */
  lemma LengthTellsKind(m: Message)
    ensures |Pack(m)| == match m
                         case BalanceProof(_, _, _, _, _, _, _) => 212
                         case BalanceProofMessage(_, _, _, _, _, _, _, _) => 277
                         case CooperativeSettle(_, _, _, _, _, _, _) => 220
                         case Withdraw(_, _, _, _, _, _) => 200
                         case RewardProof(_, _, _, _, _, _) => 221
                         case Iou(_, _, _, _, _, _) => 188
  {
  }

  lemma FieldsDetermine(m: Message, m': Message)
    requires Encodable(m) && Encodable(m') && Widths(m) == Widths(m') && |Pack(m)| == |Pack(m')|
    requires Fields(m) == Fields(m') && Contract(m) == Contract(m') && m.chain == m'.chain && TypeOf(m) == TypeOf(m')
    ensures m == m'
  {
    LengthTellsKind(m);
    LengthTellsKind(m');
    var f, f' := Fields(m), Fields(m');
    assert f[0] == f'[0] && f[1] == f'[1] && f[2] == f'[2] && f[3] == f'[3];
    match m
    case BalanceProof(_, _, channel, _, _, nonce, _) =>
      BigEndianInjective(channel, m'.channel, 32);
      BigEndianInjective(nonce, m'.nonce, 32);
    case BalanceProofMessage(_, _, channel, _, _, nonce, _, _) =>
      assert f[4] == f'[4];
      BigEndianInjective(channel, m'.channel, 32);
      BigEndianInjective(nonce, m'.nonce, 32);
    case CooperativeSettle(_, _, channel, _, balance1, _, balance2) =>
      assert f[4] == f'[4];
      BigEndianInjective(channel, m'.channel, 32);
      BigEndianInjective(balance1, m'.balance1, 32);
      BigEndianInjective(balance2, m'.balance2, 32);
    case Withdraw(_, _, channel, _, amount, until) =>
      BigEndianInjective(channel, m'.channel, 32);
      BigEndianInjective(amount, m'.amount, 32);
      BigEndianInjective(until, m'.until, 32);
    case RewardProof(_, _, _, _, _, reward) =>
      BigEndianInjective(reward, m'.reward, 32);
    case Iou(_, _, _, _, amount, until) =>
      BigEndianInjective(amount, m'.amount, 32);
      BigEndianInjective(until, m'.until, 32);
  }

  /** No two different messages, of the same or of different kinds, have the same packing. */
  lemma PackInjective(m: Message, m': Message)
    requires Encodable(m) && Encodable(m') && Pack(m) == Pack(m')
    ensures m == m'
  {
    LengthTellsKind(m);
    LengthTellsKind(m');
    assert Widths(m) == Widths(m');
    TypeAtFixedPlace(m);
    TypeAtFixedPlace(m');
    PackIsConcat(m);
    PackIsConcat(m');
    ConcatInjective(Fields(m), Fields(m'), Widths(m));
    SmallTypesFit(m);
    SmallTypesFit(m');
    BigEndianInjective(m.chain, m'.chain, 32);
    BigEndianInjective(TypeOf(m), TypeOf(m'), 32);
    FieldsDetermine(m, m');
  }

  // The prefix every signed message gets

  function Decimal(n: nat): (s: ascii)
    ensures |s| > 0
  {
    if n < 10 then ["0123456789"[n]] else Decimal(n / 10) + ["0123456789"[n % 10]]
  }

  const PREFIX: ascii := "\U{19}Ethereum Signed Message:\n"

  /** What is hashed for signing. */
  function Prefixed(message: seq<byte>): seq<byte> {
    Encode(PREFIX) + Encode(Decimal(|message|)) + message
  }

  lemma {:induction false} DigitsGrow(n: nat, m: nat)
    requires n <= m
    ensures |Decimal(n)| <= |Decimal(m)|
  {
    if n >= 10 {
      DigitsGrow(n / 10, m / 10);
    }
  }

  /** The prefix with the decimal length is injective on all byte strings: a length plus its number of digits
      determines the length. */
  lemma PrefixInjective(a: seq<byte>, b: seq<byte>)
    requires Prefixed(a) == Prefixed(b)
    ensures a == b
  {
    if |a| <= |b| { DigitsGrow(|a|, |b|); } else { DigitsGrow(|b|, |a|); }
    assert |a| == |b|;
    var n := |PREFIX| + |Decimal(|a|)|;
    assert Prefixed(a)[n..] == a && Prefixed(b)[n..] == b;
  }

  /** Signatures over two different encodable messages are over different bytes. */
  lemma SignedBytesDetermineMessage(m: Message, m': Message)
    requires Encodable(m) && Encodable(m') && Prefixed(Pack(m)) == Prefixed(Pack(m'))
    ensures m == m'
  {
    PrefixInjective(Pack(m), Pack(m'));
    PackInjective(m, m');
  }
}
