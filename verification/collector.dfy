/**
 * The wallet-v3 collector: the wallet's persistent data cell, the address
 * derived from its deployable state, the signed transfer body and the
 * external message that carries it.
 */
module Collector {
  import opened Bits
  import opened Cells

  type PublicKey = s: seq<byte> | |s| == 32 witness seq(32, i => 0)
  type Hash = s: seq<byte> | |s| == 32 witness seq(32, i => 0)
  type Signature = s: seq<byte> | |s| == 64 witness seq(64, i => 0)

  /** An Ed25519 key pair; only the public half is laid out by this code. */
  datatype Keypair = Keypair(secret: seq<byte>, public: PublicKey)

  /** A standard internal address (no anycast). */
  datatype Address = Address(workchain: int, hash: Hash)

  /** The deployable image of a contract; the remaining StateInit fields keep their defaults. */
  datatype StateInit = StateInit(code: Cell, data: Cell)

  datatype Option<+T> = None | Some(value: T)

  /**
   * Message headers, with only the fields this code sets; every other header
   * field (source, fees, logical time) keeps the library default.
   */
  datatype Header =
    | ExtIn(dst: Address)
    | Int(ihrDisabled: bool, bounce: bool, dst: Address, value: u64)

  datatype Message = Message(header: Header, init: Option<StateInit>, body: Option<Cell>)

  /**
   * What the collector uses but does not define: the wallet code cell, the
   * cell representation hash, Ed25519 signing and the message-library
   * encoders of a StateInit and of a Message into cells.
   */
  datatype Externals = Externals(
    code: Cell,
    reprHash: Cell -> Hash,
    sign: (Keypair, seq<byte>) -> Signature,
    encodeStateInit: StateInit -> Cell,
    encodeMessage: Message -> Cell)

  /** Bits of an Ed25519 signature. */
  const SignatureBits := 512

  /** Bits of the wallet data cell: seqno, wallet id, public key. */
  const DataBits := 320

  // ---------------------------------------------------------------------------
  // Wallet init data
  // ---------------------------------------------------------------------------

  datatype InitData = InitData(seqno: u32, walletId: u32, publicKey: PublicKey)

  /** The genesis data of the wallet controlled by `key`. */
  function FromKey(key: Keypair): (d: InitData)
    ensures d.seqno == 0 && d.walletId == 0 && d.publicKey == key.public
  {
    InitData(0, 0, key.public)
  }

  /** Replaces the wallet id and keeps everything else. */
  function WithWalletId(d: InitData, id: u32): (r: InitData)
    ensures r.walletId == id && r.seqno == d.seqno && r.publicKey == d.publicKey
  {
    d.(walletId := id)
  }

  /** The data cell layout: seqno, wallet id, then the key, each most significant bit first. */
  function DataCell(d: InitData): Cell {
    Cell(BitsOfUint(d.seqno, 32) + BitsOfUint(d.walletId, 32) + BitsOfBytes(d.publicKey), [])
  }

  /** What reading seqno, wallet id and the key off the front of a cell gives. */
  function DecodeInitData(c: Cell): Result<InitData> {
    if |c.bits| < DataBits then Failure(UnexpectedEnd)
    else
      BitsRoundTrip(c.bits[64..DataBits]);
      Success(InitData(U32OfBits(c.bits[..32]), U32OfBits(c.bits[32..64]),
                       BytesOfBits(c.bits[64..DataBits])))
  }

  method Serialize(d: InitData) returns (r: Result<Cell>)
    ensures r == Success(DataCell(d))
  {
    var data := new Builder();
    :- data.AppendU32(d.seqno);
    assert data.bits == BitsOfUint(d.seqno, 32);
    :- data.AppendU32(d.walletId);
    assert data.bits == BitsOfUint(d.seqno, 32) + BitsOfUint(d.walletId, 32);
    :- data.AppendRaw(d.publicKey, 256);
    assert BitsOfBytes(d.publicKey)[..256] == BitsOfBytes(d.publicKey);
    assert data.bits == DataCell(d).bits;
    assert data.refs == [];
    r := data.IntoCell();
  }

  method Deserialize(data: Cell) returns (r: Result<InitData>)
    ensures r == DecodeInitData(data)
  {
    var slice := new Slice(data);
    var seqno :- slice.GetNextU32();
    var walletId :- slice.GetNextU32();
    var publicKey :- slice.GetNextBytes(32);
    r := Success(InitData(seqno, walletId, publicKey));
    DecodeInitDataFields(data, r.value);
  }

  /** A cell whose first 320 bits lay out `d` decodes to `d`. */
  lemma DecodeInitDataFields(c: Cell, d: InitData)
    requires |c.bits| >= DataBits
    requires c.bits[..32] == BitsOfUint(d.seqno, 32)
    requires c.bits[32..][..32] == BitsOfUint(d.walletId, 32)
    requires c.bits[64..][..256] == BitsOfBytes(d.publicKey)
    ensures DecodeInitData(c) == Success(d)
  {
    U32RoundTrip(d.seqno);
    U32RoundTrip(d.walletId);
    BytesRoundTrip(d.publicKey);
    assert c.bits[32..64] == c.bits[32..][..32];
    assert c.bits[64..DataBits] == c.bits[64..][..256];
  }

  /** Reading back the data cell gives the same three fields. */
  lemma InitDataRoundTrip(d: InitData)
    ensures |DataCell(d).bits| == DataBits && DataCell(d).refs == []
    ensures DecodeInitData(DataCell(d)) == Success(d)
  {
    var bits := DataCell(d).bits;
    assert bits[..32] == BitsOfUint(d.seqno, 32);
    assert bits[32..][..32] == BitsOfUint(d.walletId, 32);
    assert bits[64..][..256] == BitsOfBytes(d.publicKey);
    DecodeInitDataFields(DataCell(d), d);
  }

  /**
   * Decoding succeeds exactly on cells of at least 320 bits, and the decoded
   * data lays out to exactly those first 320 bits.
   */
  lemma DecodeInitDataExact(c: Cell)
    ensures DecodeInitData(c).Success? <==> |c.bits| >= DataBits
    ensures DecodeInitData(c).Failure? ==> DecodeInitData(c).error == UnexpectedEnd
    ensures DecodeInitData(c).Success? ==> DataCell(DecodeInitData(c).value).bits == c.bits[..DataBits]
  {
    if |c.bits| >= DataBits {
      var b := c.bits;
      BitsRoundTrip(b[64..DataBits]);
      assert b[..DataBits] == b[..32] + b[32..64] + b[64..DataBits];
    }
  }

  /** Distinct init data give distinct data cells. */
  lemma DataCellInjective(d1: InitData, d2: InitData)
    ensures DataCell(d1) == DataCell(d2) <==> d1 == d2
  {
    InitDataRoundTrip(d1);
    InitDataRoundTrip(d2);
  }

  /** Read as one big-endian number, the data cell is seqno, then wallet id, then key. */
  lemma DataCellNumber(d: InitData)
    ensures UintOfBits(DataCell(d).bits) ==
            d.seqno * Pow2(288) + d.walletId * Pow2(256) + UintOfBits(BitsOfBytes(d.publicKey))
  {
    var s, w, k := BitsOfUint(d.seqno, 32), BitsOfUint(d.walletId, 32), BitsOfBytes(d.publicKey);
    Pow2Values();
    UintOfBitsOfUint(d.seqno, 32);
    UintOfBitsOfUint(d.walletId, 32);
    UintOfBitsAppend3(s, w, k);
  }

  // ---------------------------------------------------------------------------
  // State init and address
  // ---------------------------------------------------------------------------

  /** The wallet code with the data cell of `d`, which reads back as `d`. */
  function MakeStateInit(ext: Externals, d: InitData): (s: StateInit)
    ensures s.code == ext.code && |s.data.bits| == DataBits && s.data.refs == []
    ensures DecodeInitData(s.data) == Success(d)
  {
    InitDataRoundTrip(d);
    StateInit(ext.code, DataCell(d))
  }

  /**
   * The address: workchain 0 and the representation hash of the encoded
   * StateInit, whose code is the wallet code and whose data reads back as `d`.
   */
  function ComputeAddr(ext: Externals, d: InitData): (a: Address)
    ensures a.workchain == 0
    ensures a.hash == ext.reprHash(ext.encodeStateInit(MakeStateInit(ext, d)))
  {
    Address(0, ext.reprHash(ext.encodeStateInit(MakeStateInit(ext, d))))
  }

  /** The address of the genesis wallet of `key` with wallet id `id`. */
  function ComputeDepositAddress(ext: Externals, key: Keypair, id: u32): (a: Address)
    ensures a == ComputeAddr(ext, InitData(0, id, key.public))
  {
    ComputeAddr(ext, WithWalletId(FromKey(key), id))
  }

  /** A StateInit determines the wallet data it was made from. */
  lemma StateInitDeterminesData(ext: Externals, d1: InitData, d2: InitData)
    ensures MakeStateInit(ext, d1) == MakeStateInit(ext, d2) <==> d1 == d2
  {
    DataCellInjective(d1, d2);
  }

  /**
   * The deposit address of (key, id) is the hash of a StateInit whose data
   * reads back as seqno 0, wallet id `id` and the public key.
   */
  lemma DepositAddressState(ext: Externals, key: Keypair, id: u32)
    ensures ComputeDepositAddress(ext, key, id).workchain == 0
    ensures ComputeDepositAddress(ext, key, id).hash ==
            ext.reprHash(ext.encodeStateInit(MakeStateInit(ext, InitData(0, id, key.public))))
    ensures MakeStateInit(ext, InitData(0, id, key.public)).code == ext.code
    ensures DecodeInitData(MakeStateInit(ext, InitData(0, id, key.public)).data) ==
            Success(InitData(0, id, key.public))
  {
    InitDataRoundTrip(InitData(0, id, key.public));
  }

  /**
   * Two wallet ids or two keys give two different StateInits, so two deposit
   * addresses can coincide only through a collision of the encoder or the hash.
   */
  lemma DepositStatesDistinct(ext: Externals, key1: Keypair, id1: u32, key2: Keypair, id2: u32)
    ensures MakeStateInit(ext, WithWalletId(FromKey(key1), id1)) ==
            MakeStateInit(ext, WithWalletId(FromKey(key2), id2))
            <==> id1 == id2 && key1.public == key2.public
  {
    StateInitDeterminesData(ext, WithWalletId(FromKey(key1), id1), WithWalletId(FromKey(key2), id2));
  }

  // ---------------------------------------------------------------------------
  // Signed transfer body
  // ---------------------------------------------------------------------------

  /** The guard is `>=`: three gifts are the most a message carries. */
  const MaxGiftCount := 4

  datatype Gift = Gift(flags: byte, bounce: bool, destination: Address, amount: u64)

  /**
   * The internal message a gift becomes: hypercube routing disabled, the
   * gift's bounce flag, destination and amount, no StateInit and no body.
   */
  function GiftMessage(g: Gift): (m: Message)
    ensures m.header.Int? && m.header.ihrDisabled
    ensures m.header.bounce == g.bounce && m.header.dst == g.destination && m.header.value == g.amount
    ensures m.init == None && m.body == None
  {
    Message(Int(true, g.bounce, g.destination, g.amount), None, None)
  }

  /** `now + ttl` in 32-bit unsigned arithmetic, wrapping around. */
  function Expires(now: u32, ttl: u32): (e: u32)
    ensures now + ttl < 0x1_0000_0000 ==> e == now + ttl
    ensures now + ttl >= 0x1_0000_0000 ==> e == now + ttl - 0x1_0000_0000
  {
    (now + ttl) % 0x1_0000_0000
  }

  /** One flags byte per gift, in order. */
  function FlagBits(gifts: seq<Gift>): (r: seq<bool>)
    ensures |r| == 8 * |gifts|
  {
    if gifts == [] then []
    else FlagBits(gifts[..|gifts| - 1]) + BitsOfUint(gifts[|gifts| - 1].flags, 8)
  }

  /** One reference per gift, in order: the encoded internal message. */
  function GiftRefs(ext: Externals, gifts: seq<Gift>): (r: seq<Cell>)
    ensures |r| == |gifts|
  {
    if gifts == [] then []
    else GiftRefs(ext, gifts[..|gifts| - 1]) + [ext.encodeMessage(GiftMessage(gifts[|gifts| - 1]))]
  }

  /** The body before signing. */
  function UnsignedBody(ext: Externals, walletId: u32, expires: u32, seqno: u32, gifts: seq<Gift>): Cell {
    Cell(BitsOfUint(walletId, 32) + BitsOfUint(expires, 32) + BitsOfUint(seqno, 32) + FlagBits(gifts),
         GiftRefs(ext, gifts))
  }

  /** The body after the signature of its hash has been put in front of its bits. */
  function SignedBody(ext: Externals, key: Keypair, unsigned: Cell): Cell {
    Cell(BitsOfBytes(ext.sign(key, ext.reprHash(unsigned))) + unsigned.bits, unsigned.refs)
  }

  method MakeGiftMessage(ext: Externals, initData: InitData, key: Keypair, seqno: u32, ttl: u32,
                         now: u32, gifts: seq<Gift>) returns (r: Result<Cell>)
    ensures |gifts| >= MaxGiftCount ==> r == Failure(TooManyGifts)
    ensures |gifts| < MaxGiftCount ==>
              r == Success(SignedBody(ext, key,
                                      UnsignedBody(ext, initData.walletId, Expires(now, ttl), seqno, gifts)))
  {
    if |gifts| >= MaxGiftCount {
      return Failure(TooManyGifts);
    }
    var message := new Builder();
    :- message.AppendU32(initData.walletId);
    assert message.bits == BitsOfUint(initData.walletId, 32);
    :- message.AppendU32(Expires(now, ttl));
    :- message.AppendU32(seqno);
    :- AppendGifts(ext, message, gifts);
    assert message.refs == GiftRefs(ext, gifts);
    r := SignBody(ext, key, message);
  }

  /** The `for gift in gifts` loop: a flags byte and a message reference per gift. */
  method AppendGifts(ext: Externals, message: Builder, gifts: seq<Gift>) returns (r: Outcome)
    requires message.Valid() && |message.bits| + 8 * |gifts| <= MaxBits
    modifies message
    ensures message.Valid() && r == Pass
    ensures message.bits == old(message.bits) + FlagBits(gifts)
    ensures message.refs == old(message.refs) + GiftRefs(ext, gifts)
  {
    ghost var bits0, refs0 := message.bits, message.refs;
    var i := 0;
    while i < |gifts|
      invariant 0 <= i <= |gifts|
      invariant message.Valid()
      invariant message.bits == bits0 + FlagBits(gifts[..i])
      invariant message.refs == refs0 + GiftRefs(ext, gifts[..i])
    {
      var internal := ext.encodeMessage(GiftMessage(gifts[i]));
      r := message.AppendU8(gifts[i].flags);
      if r.Fail? {
        return;
      }
      message.AppendReference(internal);
      assert gifts[..i + 1][..i] == gifts[..i];
      i := i + 1;
    }
    assert gifts[..i] == gifts;
    r := Pass;
  }

  /**
   * Finalizes a copy of the builder, signs that cell's representation hash,
   * puts the 512 signature bits in front of the same builder's bits and
   * finalizes it again.
   */
  method SignBody(ext: Externals, key: Keypair, message: Builder) returns (r: Result<Cell>)
    requires message.Valid() && |message.bits| + SignatureBits <= MaxBits && |message.refs| <= MaxRefs
    modifies message
    ensures r == Success(SignedBody(ext, key, Cell(old(message.bits), old(message.refs))))
    ensures message.bits == r.value.bits && message.refs == old(message.refs)
  {
    var unsigned :- message.IntoCell();
    var signature := ext.sign(key, ext.reprHash(unsigned));
    :- message.PrependRaw(signature, SignatureBits);
    assert BitsOfBytes(signature)[..SignatureBits] == BitsOfBytes(signature);
    r := message.IntoCell();
  }

  /** The gift's flags byte sits at its position in the flags run. */
  lemma {:induction false} FlagBitsAt(gifts: seq<Gift>, i: nat)
    requires i < |gifts|
    ensures FlagBits(gifts)[8 * i..8 * i + 8] == BitsOfUint(gifts[i].flags, 8)
  {
    var n := |gifts|;
    var init := gifts[..n - 1];
    if i < n - 1 {
      FlagBitsAt(init, i);
      assert FlagBits(gifts)[8 * i..8 * i + 8] == FlagBits(init)[8 * i..8 * i + 8];
    }
  }

  /** The gift's message is the reference at its position. */
  lemma {:induction false} GiftRefsAt(ext: Externals, gifts: seq<Gift>, i: nat)
    requires i < |gifts|
    ensures GiftRefs(ext, gifts)[i] == ext.encodeMessage(GiftMessage(gifts[i]))
  {
    var n := |gifts|;
    if i < n - 1 {
      GiftRefsAt(ext, gifts[..n - 1], i);
    }
  }

  /** The unsigned body opens with wallet id, expiry and seqno as 32-bit fields. */
  lemma UnsignedBodyFields(ext: Externals, walletId: u32, expires: u32, seqno: u32, gifts: seq<Gift>)
    ensures var u := UnsignedBody(ext, walletId, expires, seqno, gifts);
            |u.bits| == 96 + 8 * |gifts| && |u.refs| == |gifts| &&
            U32OfBits(u.bits[..32]) == walletId &&
            U32OfBits(u.bits[32..64]) == expires &&
            U32OfBits(u.bits[64..96]) == seqno
  {
    var u := UnsignedBody(ext, walletId, expires, seqno, gifts);
    U32RoundTrip(walletId);
    U32RoundTrip(expires);
    U32RoundTrip(seqno);
    assert u.bits[..32] == BitsOfUint(walletId, 32);
    assert u.bits[32..64] == BitsOfUint(expires, 32);
    assert u.bits[64..96] == BitsOfUint(seqno, 32);
  }

  /** Gift `i` owns flags byte `i` after the three fields and reference `i`. */
  lemma UnsignedBodyGift(ext: Externals, walletId: u32, expires: u32, seqno: u32, gifts: seq<Gift>, i: nat)
    requires i < |gifts|
    ensures var u := UnsignedBody(ext, walletId, expires, seqno, gifts);
            |u.bits| == 96 + 8 * |gifts| && |u.refs| == |gifts| &&
            u.bits[96 + 8 * i..104 + 8 * i] == BitsOfUint(gifts[i].flags, 8) &&
            u.refs[i] == ext.encodeMessage(GiftMessage(gifts[i]))
  {
    var u := UnsignedBody(ext, walletId, expires, seqno, gifts);
    FlagBitsAt(gifts, i);
    GiftRefsAt(ext, gifts, i);
    assert u.bits[96 + 8 * i..104 + 8 * i] == FlagBits(gifts)[8 * i..8 * i + 8];
  }

  /**
   * The whole unsigned body: the three fields, then one flags byte per gift
   * in input order, and one reference per gift in the same order.
   */
  lemma UnsignedBodyLayout(ext: Externals, walletId: u32, expires: u32, seqno: u32, gifts: seq<Gift>)
    ensures var u := UnsignedBody(ext, walletId, expires, seqno, gifts);
            |u.bits| == 96 + 8 * |gifts| && |u.refs| == |gifts| &&
            U32OfBits(u.bits[..32]) == walletId &&
            U32OfBits(u.bits[32..64]) == expires &&
            U32OfBits(u.bits[64..96]) == seqno &&
            forall i :: 0 <= i < |gifts| ==>
              u.bits[96 + 8 * i..104 + 8 * i] == BitsOfUint(gifts[i].flags, 8) &&
              u.refs[i] == ext.encodeMessage(GiftMessage(gifts[i]))
  {
    UnsignedBodyFields(ext, walletId, expires, seqno, gifts);
    forall i | 0 <= i < |gifts|
      ensures var u := UnsignedBody(ext, walletId, expires, seqno, gifts);
              u.bits[96 + 8 * i..104 + 8 * i] == BitsOfUint(gifts[i].flags, 8) &&
              u.refs[i] == ext.encodeMessage(GiftMessage(gifts[i]))
    {
      UnsignedBodyGift(ext, walletId, expires, seqno, gifts, i);
    }
  }

  /**
   * The signed body is the 512-bit signature followed by the unsigned bits,
   * with the references unchanged; stripping the signature leaves a cell whose
   * representation hash is what was signed.
   */
  lemma SignedBodyLayout(ext: Externals, key: Keypair, unsigned: Cell)
    ensures var s := SignedBody(ext, key, unsigned);
            |s.bits| == SignatureBits + |unsigned.bits| &&
            s.bits[SignatureBits..] == unsigned.bits && s.refs == unsigned.refs &&
            BytesOfBits(s.bits[..SignatureBits]) == ext.sign(key, ext.reprHash(Cell(s.bits[SignatureBits..], s.refs)))
  {
    var signature := ext.sign(key, ext.reprHash(unsigned));
    var s := SignedBody(ext, key, unsigned);
    assert s.bits[..SignatureBits] == BitsOfBytes(signature);
    assert s.bits[SignatureBits..] == unsigned.bits;
    assert Cell(s.bits[SignatureBits..], s.refs) == unsigned;
    BytesRoundTrip(signature);
  }

  /**
   * The signed body fits one cell exactly when there are at most four gifts:
   * the `>= 4` guard, not the cell capacity, is what turns away a fourth gift.
   */
  lemma SignedBodyFits(ext: Externals, key: Keypair, walletId: u32, expires: u32, seqno: u32, gifts: seq<Gift>)
    ensures Fits(SignedBody(ext, key, UnsignedBody(ext, walletId, expires, seqno, gifts))) <==>
            |gifts| <= MaxRefs
  {
    UnsignedBodyLayout(ext, walletId, expires, seqno, gifts);
    SignedBodyLayout(ext, key, UnsignedBody(ext, walletId, expires, seqno, gifts));
  }

  // ---------------------------------------------------------------------------
  // External message
  // ---------------------------------------------------------------------------

  datatype MessageParams = MessageParams(
    key: Keypair, to: Address, init: bool, destroy: bool, seqno: u32, id: u32, ttl: u32)

  /** 128: carry the whole balance; 32: destroy the wallet once its balance is zero. */
  function GiftFlags(destroy: bool): (f: byte)
    ensures f == 128 || f == 160
    ensures f == 160 <==> destroy
  {
    128 + if destroy then 32 else 0
  }

  /** Bit 7 is always set, bit 5 is set exactly when `destroy`, the rest are clear. */
  lemma GiftFlagsBits(destroy: bool)
    ensures BitsOfUint(GiftFlags(destroy), 8) == [true, false, destroy, false, false, false, false, false]
  {
    if destroy {
      assert GiftFlags(destroy) == 160;
      assert BitsOfUint(5, 3) == [true, false, true];
    } else {
      assert GiftFlags(destroy) == 128;
      assert BitsOfUint(4, 3) == [true, false, false];
    }
  }

  /**
   * The external message to the deposit address: the StateInit attached
   * exactly when deploying, and as body the signed transfer of one gift that
   * carries the whole balance, does not bounce and names zero as its amount.
   */
  method CreateMessage(ext: Externals, params: MessageParams, now: u32) returns (r: Result<Message>)
    ensures r.Success?
    ensures r.value.header == ExtIn(ComputeDepositAddress(ext, params.key, params.id))
    ensures r.value.init.Some? <==> params.init
    ensures r.value.init.Some? ==>
              r.value.init.value == MakeStateInit(ext, InitData(0, params.id, params.key.public)) &&
              Address(0, ext.reprHash(ext.encodeStateInit(r.value.init.value))) == r.value.header.dst
    ensures r.value.body ==
              Some(SignedBody(ext, params.key,
                              UnsignedBody(ext, params.id, Expires(now, params.ttl), params.seqno,
                                           [Gift(GiftFlags(params.destroy), false, params.to, 0)])))
    ensures r.value.body.value.refs == [ext.encodeMessage(Message(Int(true, false, params.to, 0), None, None))]
    ensures r.value.body.value.bits[SignatureBits + 96..SignatureBits + 104] ==
              [true, false, params.destroy, false, false, false, false, false]
  {
    var initData := WithWalletId(FromKey(params.key), params.id);
    var message := Message(ExtIn(ComputeAddr(ext, initData)), None, None);
    if params.init {
      message := message.(init := Some(MakeStateInit(ext, initData)));
    }
    var gift := Gift(GiftFlags(params.destroy), false, params.to, 0);
    var transfer :- MakeGiftMessage(ext, initData, params.key, params.seqno, params.ttl, now, [gift]);
    message := message.(body := Some(transfer));
    r := Success(message);

    SingleGiftBody(ext, params.key, params.id, Expires(now, params.ttl), params.seqno, params.destroy, params.to);
  }

  /**
   * In the signed body of the one gift the collector sends, the flags byte
   * follows the signature and the three fields and reads 128, plus 32 when
   * destroying; the only reference is the non-bouncing zero-value message.
   */
  lemma SingleGiftBody(ext: Externals, key: Keypair, walletId: u32, expires: u32, seqno: u32,
                       destroy: bool, to: Address)
    ensures var body := SignedBody(ext, key, UnsignedBody(ext, walletId, expires, seqno,
                                                          [Gift(GiftFlags(destroy), false, to, 0)]));
            body.refs == [ext.encodeMessage(Message(Int(true, false, to, 0), None, None))] &&
            body.bits[SignatureBits + 96..SignatureBits + 104] ==
              [true, false, destroy, false, false, false, false, false]
  {
    var gift := Gift(GiftFlags(destroy), false, to, 0);
    var unsigned := UnsignedBody(ext, walletId, expires, seqno, [gift]);
    UnsignedBodyGift(ext, walletId, expires, seqno, [gift], 0);
    SignedBodyLayout(ext, key, unsigned);
    GiftFlagsBits(destroy);
    var body := SignedBody(ext, key, unsigned);
    assert body.bits[SignatureBits + 96..SignatureBits + 104] == unsigned.bits[96..104];
  }
}
