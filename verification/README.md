# Wallet-v3 deposit collector, modelled in Dafny

The collector sweeps deposit wallets. Each deposit wallet is a wallet-v3
contract whose address is derived from an Ed25519 public key and a 32-bit
wallet id. To empty one, the collector builds an external inbound message
addressed to that wallet. The message optionally carries the wallet's
StateInit, so that the wallet is deployed on the way. Its body is a signed
wallet-v3 transfer with one gift. The gift sends the whole balance (mode 128)
to the destination and, when requested, destroys the wallet once its balance
is zero (mode +32).

The model has three modules:

- `Bits` (`bits.dfy`): unsigned integers and byte strings as big-endian bit
  strings, their decodings and the round trips between them.
- `Cells` (`cells.dfy`): the cell-library behaviour the collector relies on.
  - A `Cell` holds up to 1023 bits and up to 4 references.
  - A `Builder` class appends, prepends and finalizes in place.
  - A `Slice` class reads typed fields with a moving cursor.
  - The failure kinds are a `Result`/`Outcome` datatype.
- `Collector` (`collector.dfy`): `src/lib.rs`.
  - `InitData` with `from_key`, `with_wallet_id`, `serialize` and `deserialize`.
  - The StateInit and the address derived from it.
  - `make_gift_message`, with its `>= MAX_GIFT_COUNT` guard, the gift loop and the signing step.
  - `create_message`.

What the collector uses but does not define is bundled in one parameter, the
`Externals` value:

- the wallet code cell;
- the cell representation hash;
- Ed25519 signing;
- the message library's encoders of a StateInit and of a Message into a cell.

Every result is stated for all such values. Nothing is assumed about the hash
or the signature scheme beyond being functions.

The gift-count guard is kept as written: `gifts.len() >= 4` fails. A message
therefore carries at most three gifts. `SignedBodyFits` shows that a fourth
gift would still fit the cell.

## Model

| member | source | states |
|---|---|---|
| Collector.FromKey | src/lib.rs:69-75 | the genesis data has seqno 0, wallet id 0 and the key's public half |
| Collector.WithWalletId | src/lib.rs:77-80 | only the wallet id changes; seqno and key are kept |
| Collector.Serialize | src/lib.rs:109-115 | serializing init data always succeeds and yields the data cell: seqno, wallet id, 256 key bits, no references |
| Collector.Deserialize | src/lib.rs:96-107 | reading seqno, wallet id and 32 key bytes through a slice gives exactly `DecodeInitData`, including the UnexpectedEnd failure on a short cell |
| Collector.InitDataRoundTrip | src/lib.rs:96-115 | the data cell has 320 bits and no references, and deserializing it gives the original init data back |
| Collector.DecodeInitDataExact | src/lib.rs:96-107 | decoding succeeds iff the cell has at least 320 bits and otherwise fails with UnexpectedEnd; the decoded data re-lays out to exactly the first 320 bits |
| Collector.DataCellInjective | src/lib.rs:109-115 | two init data have the same data cell iff they are equal |
| Collector.DataCellNumber | src/lib.rs:109-115 | read as one big-endian number, the data cell is seqno·2^288 + wallet id·2^256 + key |
| Collector.MakeStateInit | src/lib.rs:88-94 | the StateInit carries the wallet code and a 320-bit, reference-free data cell that decodes back to the init data |
| Collector.ComputeAddr | src/lib.rs:82-86 | the address is in workchain 0 and carries the hash of the encoded StateInit of the init data; `DepositAddressState` and `CreateMessage` state what that StateInit holds and that the message goes there |
| Collector.ComputeDepositAddress | src/lib.rs:57-59 | the deposit address is the address of the init data with seqno 0, the given wallet id and the public key |
| Collector.StateInitDeterminesData | src/lib.rs:88-94 | two StateInits are equal iff their init data are equal |
| Collector.DepositAddressState | src/lib.rs:57-59 | the deposit address is in workchain 0 and is the hash of the encoded StateInit whose data decodes to seqno 0, the given id and the public key |
| Collector.DepositStatesDistinct | src/lib.rs:57-59 | deposit StateInits of two (key, id) pairs coincide iff ids and public keys coincide |
| Collector.Expires | src/lib.rs:143 | `now + ttl` wraps modulo 2^32 |
| Collector.MakeGiftMessage | src/lib.rs:127-168 | four or more gifts fail with TooManyGifts; otherwise the result is the signed body of wallet id, expiry, seqno, one flags byte and one message reference per gift |
| Collector.AppendGifts | src/lib.rs:146-160 | the loop appends the flags bytes and the encoded internal messages of all gifts, in order, and never fails when the bits fit |
| Collector.SignBody | src/lib.rs:162-167 | the signature of the finalized builder's hash is put in front of its bits, references unchanged; the builder is left holding exactly the returned cell's bits and references |
| Collector.GiftMessage | src/lib.rs:148-154 | a gift's internal message has hypercube routing disabled, the gift's bounce flag, destination and amount, and no StateInit or body; `GiftRefsAt` places it as the gift's reference |
| Collector.FlagBitsAt | src/lib.rs:157-158 | gift i's flags byte is byte i of the flags run |
| Collector.GiftRefsAt | src/lib.rs:148-159 | reference i is the encoded internal message of gift i: hypercube routing disabled, its bounce flag, destination and amount |
| Collector.UnsignedBodyFields | src/lib.rs:141-144 | the unsigned body has 96 + 8n bits and n references, and its three 32-bit fields read back as wallet id, expiry and seqno |
| Collector.UnsignedBodyGift | src/lib.rs:146-160 | gift i owns the flags byte at bit 96 + 8i and reference i |
| Collector.UnsignedBodyLayout | src/lib.rs:138-160 | the whole unsigned layout: the three fields, then each gift's flags byte and reference in input order |
| Collector.SignedBodyLayout | src/lib.rs:162-167 | the signed body is 512 signature bits followed by the unsigned bits; stripping them leaves a cell whose hash is what was signed |
| Collector.SignedBodyFits | src/lib.rs:134-136 | the signed body fits one cell iff there are at most four gifts, so the `>= 4` guard is stricter than the cell capacity |
| Collector.GiftFlags | src/lib.rs:43-45 | the flags are 128 or 160, and 160 exactly when destroying; `GiftFlagsBits` gives their bits |
| Collector.GiftFlagsBits | src/lib.rs:43-45 | the flags byte has bit 7 set, bit 5 set exactly when destroying, the rest clear |
| Collector.SingleGiftBody | src/lib.rs:37-50 | in the single-gift body the flags byte follows signature and fields, and the only reference is the non-bouncing zero-value message to `to` |
| Collector.CreateMessage | src/lib.rs:21-54 | always succeeds; destination is the deposit address; a StateInit is attached iff `init`, and it hashes to that destination; the body is the signed single-gift transfer |
| Cells.Builder.AppendU32 | src/lib.rs:141-144 | appends 32 big-endian bits, or fails with CapacityExceeded beyond 1023 bits and leaves the builder unchanged |
| Cells.Builder.AppendRaw | src/lib.rs:113 | appends the first bitLen bits of the bytes; fails on a too-short buffer or past capacity |
| Cells.Builder.AppendU8 | src/lib.rs:158 | appends 8 big-endian bits or fails with CapacityExceeded |
| Cells.Builder.AppendReference | src/lib.rs:159 | adds one reference at the end and keeps the bits |
| Cells.Builder.PrependRaw | src/lib.rs:164 | puts the first bitLen bits of the bytes in front; fails on a too-short buffer or past capacity |
| Cells.Builder.IntoCell | src/lib.rs:163 | finalizes the current bits and references into a cell that fits, or fails with TooManyReferences |
| Cells.Slice.GetNextU32 | src/lib.rs:98-99 | reads the next 32 bits as a number and advances the cursor, or fails with UnexpectedEnd |
| Cells.Slice.GetNextBytes | src/lib.rs:100 | reads the next n whole bytes and advances the cursor, or fails with UnexpectedEnd |

## Left out

- The command-line front end is not part of this model.
- `now()` (the system clock) becomes a parameter of `MakeGiftMessage` and `CreateMessage`.
- Collector.Expires: `now() + ttl` is modelled as wrapping modulo 2^32, as an unchecked build does; a build with overflow checks would panic instead.
- `load_code` becomes the `code` field of `Externals`. The embedded wallet code is not decoded.
- Ed25519 signing and the cell representation hash are arbitrary function values. Nothing is proved about collisions, so distinct deposit addresses are shown only as distinct StateInits.
- The message library's encodings of `StateInit` and `Message` into cells are opaque encoder functions. Their bit layout, and the remaining header fields left at their defaults, are not modelled.
- Collector.CreateMessage: the failures of those encoders and of standard-address construction are not modelled; `make_state_init`, `compute_addr` and the encoders are total.
- The cell library's own source is not shown; the `Cells` module models the behaviour the collector relies on, assumed as follows:
  - appends and prepends fail beyond 1023 bits;
  - raw appends and prepends fail when the byte buffer is shorter than the bit count;
  - adding a reference never fails, and the four-reference limit is enforced when the cell is finalized.
- Addresses: only standard addresses (a workchain and a 256-bit hash) are modelled. A gift destination may in general be any internal address, including anycast and variable-length ones; every result is stated for an arbitrary destination of the modelled kind.
- Cells.Slice: the reference cursor of a slice is not tracked, because the collector never reads references.
