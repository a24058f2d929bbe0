/** Packing of values before they are hashed and signed: balance proofs and closing agreements. */
module Packing {
  import opened Wrappers
  import opened Bytes

  /** format_int: hexadecimal, zero-filled to the size in bits, decoded to bytes. */
  function FormatInt(value: int, size: nat): Option<seq<byte>> {
    if value >= 0 then DecodeHex(Zfill(Hex(value), size / 4))
    else if Pow(2, size) + value < 0 then None
    else DecodeHex(Hex(Pow(2, size) + value))
  }

  lemma {:induction false} Pow2Bytes(n: nat)
    ensures Pow(2, 8 * n) == Pow(256, n)
  {
    if n > 0 {
      Pow2Bytes(n - 1);
      var m := 8 * n - 8;
      assert Pow(2, m + 2) == 4 * Pow(2, m);
      assert Pow(2, m + 4) == 4 * Pow(2, m + 2);
      assert Pow(2, m + 6) == 4 * Pow(2, m + 4);
      assert Pow(2, m + 8) == 4 * Pow(2, m + 6);
    }
  }

  /** For a non-negative value that fits, the formatting chain is exactly the big-endian encoding. */
  lemma FormatsBigEndian(v: nat, n: nat)
    requires n > 0 && v < Pow(256, n)
    ensures FormatInt(v, 8 * n) == Some(BigEndian(v, n))
  {
    Pow16Twice(n);
    ZfillHex(v, 2 * n);
    DecodeHexDigits(v, n);
    assert 8 * n / 4 == 2 * n;
  }

  /** ... and a non-negative value is formatted to the declared width exactly when it fits. */
  lemma FormatWidthIff(v: nat, n: nat)
    requires n > 0
    ensures (FormatInt(v, 8 * n).Some? && |FormatInt(v, 8 * n).value| == n) <==> v < Pow(256, n)
  {
    Pow16Twice(n);
    HexLength(v, 2 * n);
    if v < Pow(256, n) {
      FormatsBigEndian(v, n);
    } else {
      DecodeLength(Hex(v));
    }
  }

  /** A negative value is not zero-filled: it gets the declared width, then as the two's complement, exactly
      when its two's complement needs all hexadecimal digits. */
  lemma FormatNegativeIff(v: int, n: nat)
    requires n > 0 && v < 0
    ensures (FormatInt(v, 8 * n).Some? && |FormatInt(v, 8 * n).value| == n) <==> Pow(16, 2 * n - 1) <= Pow(256, n) + v
    ensures Pow(16, 2 * n - 1) <= Pow(256, n) + v ==> FormatInt(v, 8 * n) == Some(BigEndian(Pow(256, n) + v, n))
  {
    Pow2Bytes(n);
    Pow16Twice(n);
    var w := Pow(256, n) + v;
    if w >= 0 {
      HexLength(w, 2 * n);
      HexLength(w, 2 * n - 1);
      if Pow(16, 2 * n - 1) <= w {
        ZfillHex(w, 2 * n);
        DecodeHexDigits(w, n);
      } else {
        DecodeLength(Hex(w));
      }
    }
  }

  /** 256 in 8 bits, and -255, whose two's complement is a single digit, cannot be packed at all. */
  lemma WidthsThatFail()
    ensures FormatInt(256, 8) == None && FormatInt(-255, 8) == None
  {
    FormatWidthIff(256, 1);
    FormatNegativeIff(-255, 1);
    assert Pow(256, 1) == 256 * Pow(256, 0) && Pow(16, 1) == 16 * Pow(16, 0);
    Pow2Bytes(1);
    assert Hex(1) == "1";
    assert Hex(256 / 16) == Hex(1) + [HexChar(0)];
    assert Hex(256) == Hex(16) + [HexChar(0)];
    DecodeLength(Hex(256));
  }

  datatype Arg =
    | BytesArg(bytes: seq<byte>)
    | TextArg(text: ascii)
    | BoolArg(flag: bool)
    | IntArg(number: int)
    | SizedArg(number: int, size: nat)

  predicate Is0xPrefixed(s: string) { |s| >= 2 && s[0] == '0' && (s[1] == 'x' || s[1] == 'X') }

  /** The bytes one argument contributes. */
  function PackOne(arg: Arg): Option<seq<byte>> {
    match arg
    case BytesArg(bytes) => Some(bytes)
    case TextArg(text) => if Is0xPrefixed(text) then DecodeHex(text[2..]) else Some(Encode(text))
    case BoolArg(flag) => FormatInt(if flag then 1 else 0, 8)
    case IntArg(number) => FormatInt(number, 256)
    case SizedArg(number, size) => FormatInt(number, size)
  }

  /** A byte is packed as itself. */
  lemma FormatsByte(v: byte)
    ensures FormatInt(v, 8) == Some([v])
  {
    assert Pow(256, 1) == 256 * Pow(256, 0);
    FormatsBigEndian(v, 1);
    assert BigEndian(v, 1) == BigEndian(v / 256, 0) + [v % 256] == [v];
  }

  /** Bytes are taken as they are, and flags are one byte. */
  lemma PlainArgs(bytes: seq<byte>, flag: bool)
    ensures PackOne(BytesArg(bytes)) == Some(bytes)
    ensures PackOne(BoolArg(flag)) == Some([if flag then 1 else 0])
  {
    FormatsByte(if flag then 1 else 0);
  }

  /** Numbers without a width get 32 bytes. */
  lemma NumberArgs(number: nat, n: nat)
    requires n == 32 && number < Pow(256, n)
    ensures PackOne(IntArg(number)) == Some(BigEndian(number, n))
  {
    FormatsBigEndian(number, n);
  }

  /** Text is taken character by character, or decoded when it is hexadecimal with a prefix. */
  lemma TextArgs(text: ascii)
    ensures !("0x" <= text) && !("0X" <= text) ==>
              && PackOne(TextArg(text)).Some? && |PackOne(TextArg(text)).value| == |text|
              && forall i :: 0 <= i < |text| ==> PackOne(TextArg(text)).value[i] == text[i] as int
    ensures "0x" <= text || "0X" <= text ==>
              && PackOne(TextArg(text)) == DecodeHex(text[2..])
              && (PackOne(TextArg(text)).Some? ==> |text| == 2 + 2 * |PackOne(TextArg(text)).value|)
  {
    if Is0xPrefixed(text) {
      DecodeLength(text[2..]);
    }
  }

  function Packed(args: seq<Arg>): Option<seq<byte>> {
    if args == [] then Some([])
    else
      match (Packed(args[..|args| - 1]), PackOne(args[|args| - 1]))
      case (Some(front), Some(last)) => Some(front + last)
      case _ => None
  }

  method Pack(args: seq<Arg>) returns (msg: Option<seq<byte>>)
    ensures msg == Packed(args)
  {
    var bytes: seq<byte> := [];
    for i := 0 to |args|
      invariant Packed(args[..i]) == Some(bytes)
    {
      assert args[..i + 1][..i] == args[..i];
      var one := PackOne(args[i]);
      if one.None? {
        PackedFails(args, i + 1);
        return None;
      }
      bytes := bytes + one.value;
    }
    assert args[..|args|] == args;
    return Some(bytes);
  }

  lemma {:induction false} PackedFails(args: seq<Arg>, i: nat)
    requires i <= |args| && Packed(args[..i]).None?
    ensures Packed(args).None?
  {
    if i == |args| {
      assert args[..i] == args;
    } else {
      assert args[..|args| - 1][..i] == args[..i];
      PackedFails(args[..|args| - 1], i);
    }
  }

  // The signed data

  /** A checked address: 0x and 40 hexadecimal digits. */
  predicate IsAddress(s: string) {
    |s| == 42 && Is0xPrefixed(s) && forall i :: 2 <= i < 42 ==> DigitOf(s[i]).Some?
  }

  type address = s: ascii | IsAddress(s) witness "0x" + Zeros(40)

  lemma {:induction false} DigitsDecode(s: string)
    requires |s| % 2 == 0 && forall i :: 0 <= i < |s| ==> DigitOf(s[i]).Some?
    ensures DecodeHex(s).Some? && 2 * |DecodeHex(s).value| == |s|
  {
    if s != [] {
      DigitsDecode(s[..|s| - 2]);
    }
  }

  function AddressBytes(a: address): (r: seq<byte>)
    ensures |r| == 20
  {
    DigitsDecode(a[2..]);
    DecodeHex(a[2..]).value
  }

  const BALANCE_ID: ascii := "Sender balance proof signature"
  const CLOSING_ID: ascii := "Receiver closing signature"

  /** The data of a signed message: its id, the counterparty, the channel's block, the balance, the contract. */
  function Data(id: ascii, party: address, block: int, balance: int, contract: address): seq<Arg> {
    [TextArg(id), TextArg(party), SizedArg(block, 32), SizedArg(balance, 192), TextArg(contract)]
  }

  function BalanceData(receiver: address, block: int, balance: int, contract: address): seq<Arg> {
    Data(BALANCE_ID, receiver, block, balance, contract)
  }

  function ClosingData(sender: address, block: int, balance: int, contract: address): seq<Arg> {
    Data(CLOSING_ID, sender, block, balance, contract)
  }

  /** A block number and a balance that fit the contract's types. */
  predicate Fits(block: int, balance: int) { 0 <= block < Pow(256, 4) && 0 <= balance < Pow(256, 24) }

  lemma PackedSnoc(args: seq<Arg>, arg: Arg)
    requires Packed(args).Some? && PackOne(arg).Some?
    ensures Packed(args + [arg]) == Some(Packed(args).value + PackOne(arg).value)
  {
    assert (args + [arg])[..|args|] == args;
  }

  function DataBytes(id: ascii, party: address, block: nat, balance: nat, contract: address): (r: seq<byte>)
    ensures |r| == |id| + 68
  {
    Encode(id) + AddressBytes(party) + BigEndian(block, 4) + BigEndian(balance, 24) + AddressBytes(contract)
  }

  lemma SizedPacked(v: nat, n: nat)
    requires n > 0 && v < Pow(256, n)
    ensures PackOne(SizedArg(v, 8 * n)) == Some(BigEndian(v, n))
  {
    FormatsBigEndian(v, n);
  }

  lemma AddressPacked(a: address)
    ensures PackOne(TextArg(a)) == Some(AddressBytes(a))
  {
    DigitsDecode(a[2..]);
  }

  /** The packed fields, for any widths of the two numbers. */
  lemma FieldsPacked(id: ascii, party: address, block: nat, n: nat, balance: nat, m: nat, contract: address)
    requires n > 0 && m > 0 && block < Pow(256, n) && balance < Pow(256, m) && !Is0xPrefixed(id)
    ensures Packed([TextArg(id), TextArg(party), SizedArg(block, 8 * n), SizedArg(balance, 8 * m), TextArg(contract)]) ==
            Some(Encode(id) + AddressBytes(party) + BigEndian(block, n) + BigEndian(balance, m) + AddressBytes(contract))
  {
    SizedPacked(block, n);
    SizedPacked(balance, m);
    AddressPacked(party);
    AddressPacked(contract);
    FivePacked(TextArg(id), Encode(id), TextArg(party), AddressBytes(party), SizedArg(block, 8 * n), BigEndian(block, n),
               SizedArg(balance, 8 * m), BigEndian(balance, m), TextArg(contract), AddressBytes(contract));
  }

  /** What is hashed: the id, then fixed-width fields. */
  lemma DataIsPacked(id: ascii, party: address, block: int, balance: int, contract: address)
    requires Fits(block, balance) && !Is0xPrefixed(id)
    ensures Packed(Data(id, party, block, balance, contract)) == Some(DataBytes(id, party, block, balance, contract))
  {
    FieldsPacked(id, party, block, 4, balance, 24, contract);
  }

  lemma FivePacked(a: Arg, a': seq<byte>, b: Arg, b': seq<byte>, c: Arg, c': seq<byte>, d: Arg, d': seq<byte>,
                   e: Arg, e': seq<byte>)
    requires PackOne(a) == Some(a') && PackOne(b) == Some(b') && PackOne(c) == Some(c')
    requires PackOne(d) == Some(d') && PackOne(e) == Some(e')
    ensures Packed([a, b, c, d, e]) == Some(a' + b' + c' + d' + e')
  {
    assert [] + [a] == [a] && [] + a' == a';
    PackedSnoc([], a);
    assert [a] + [b] == [a, b];
    PackedSnoc([a], b);
    assert [a, b] + [c] == [a, b, c];
    PackedSnoc([a, b], c);
    assert [a, b, c] + [d] == [a, b, c, d];
    PackedSnoc([a, b, c], d);
    assert [a, b, c, d] + [e] == [a, b, c, d, e];
    PackedSnoc([a, b, c, d], e);
  }

  lemma DataFields(id: ascii, party: address, block: nat, balance: nat, contract: address)
    ensures var r, n := DataBytes(id, party, block, balance, contract), |id|;
            && r[n..n + 20] == AddressBytes(party)
            && r[n + 20..n + 24] == BigEndian(block, 4)
            && r[n + 24..n + 48] == BigEndian(balance, 24)
            && r[n + 48..] == AddressBytes(contract)
  {
  }

  /** The packed data of a message determines the counterparty, the block, the balance and the contract. */
  lemma DataDetermines(id: ascii, party: address, block: int, balance: int, contract: address,
                       party': address, block': int, balance': int, contract': address)
    requires Fits(block, balance) && Fits(block', balance') && !Is0xPrefixed(id)
    requires Packed(Data(id, party, block, balance, contract)) == Packed(Data(id, party', block', balance', contract'))
    ensures AddressBytes(party) == AddressBytes(party') && AddressBytes(contract) == AddressBytes(contract')
    ensures block == block' && balance == balance'
  {
    DataIsPacked(id, party, block, balance, contract);
    DataIsPacked(id, party', block', balance', contract');
    DataFields(id, party, block, balance, contract);
    DataFields(id, party', block', balance', contract');
    BigEndianInjective(block, block', 4);
    BigEndianInjective(balance, balance', 24);
  }

  /** A balance proof and a closing agreement never have the same packed data. */
  lemma BalanceProofIsNotClosing(receiver: address, block: int, balance: int, contract: address,
                                 sender: address, block': int, balance': int, contract': address)
    requires Fits(block, balance) && Fits(block', balance')
    ensures Packed(BalanceData(receiver, block, balance, contract)) != Packed(ClosingData(sender, block', balance', contract'))
  {
    DataIsPacked(BALANCE_ID, receiver, block, balance, contract);
    DataIsPacked(CLOSING_ID, sender, block', balance', contract');
  }
}
