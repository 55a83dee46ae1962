/** Tickets: parsing (core/nus/ticket.py) and the synthetic one (core/nus/fake_ticket.py). */
module Ticket {
  import opened Bytes
  import Cbc
  import Hex

  const ENCRYPTED_TITLE_KEY_OFFSET := 0x1BF
  const TITLE_ID_OFFSET := 0x1DC
  const MIN_TICKET_SIZE := TITLE_ID_OFFSET + 8
  const FAKE_CETK_SIZE := 0x2C4

  datatype TicketError = TooSmall | KeyMissing | KeyNotHex | KeyWrongLength

  datatype TicketInfo = TicketInfo(
    titleId: string, titleIdBytes: seq<byte>, encryptedTitleKey: seq<byte>, titleKey: Cbc.Block)

  /** The common key, from the text of the WIIU_COMMON_KEY variable ("" when it is not set). */
  function LoadCommonKey(variable: string): Result<Cbc.Block, TicketError> {
    var raw := Hex.Strip(variable);
    if raw == "" then Err(KeyMissing)
    else
      match Hex.FromHex(raw)
      case None => Err(KeyNotHex)
      case Some(key) => if |key| != 16 then Err(KeyWrongLength) else Ok(key)
  }

  function TicketIv(titleIdBytes: seq<byte>): Cbc.Block
    requires |titleIdBytes| == 8
  {
    titleIdBytes + Zeros(8)
  }

  function ParseTicketBytes(cipher: Cbc.BlockCipher, data: seq<byte>,
                            variable: string): Result<TicketInfo, TicketError> {
    if |data| < MIN_TICKET_SIZE then Err(TooSmall)
    else
      var encrypted := data[ENCRYPTED_TITLE_KEY_OFFSET..ENCRYPTED_TITLE_KEY_OFFSET + 16];
      var titleIdBytes := data[TITLE_ID_OFFSET..TITLE_ID_OFFSET + 8];
      var titleId := Hex.Digits(FromBigEndian(titleIdBytes), 16);
      match LoadCommonKey(variable)
      case Err(e) => Err(e)
      case Ok(commonKey) =>
        var titleKey := Cbc.Decrypt(cipher, commonKey, TicketIv(titleIdBytes), encrypted);
        Ok(TicketInfo(titleId, titleIdBytes, encrypted, titleKey))
  }

  datatype FakeTicketError = TitleIdNotHex | TitleIdWrongLength | CommonKey(error: TicketError)

  /** The layout of a ticket that holds only a title id and an encrypted title key. */
  function CetkLayout(titleIdBytes: seq<byte>, encrypted: seq<byte>): (cetk: seq<byte>)
    requires |titleIdBytes| == 8 && |encrypted| == 16
    ensures |cetk| == FAKE_CETK_SIZE
  {
    Zeros(0x1BF) + encrypted + Zeros(0x0D) + titleIdBytes + Zeros(0xE0)
  }

  /** Patching the two fields into a zero buffer, in either order, gives the layout. */
  lemma PatchedIsLayout(titleIdBytes: seq<byte>, encrypted: seq<byte>, buf: seq<byte>)
    requires |titleIdBytes| == 8 && |encrypted| == 16
    requires var first := Zeros(TITLE_ID_OFFSET) + titleIdBytes + Zeros(FAKE_CETK_SIZE - TITLE_ID_OFFSET - 8);
             buf == first[..ENCRYPTED_TITLE_KEY_OFFSET] + encrypted + first[ENCRYPTED_TITLE_KEY_OFFSET + 16..]
    ensures buf == CetkLayout(titleIdBytes, encrypted)
  {
  }

  /** The synthetic ticket of a title: its padded id, and the all-zero title key encrypted. */
  function FakeCetk(cipher: Cbc.BlockCipher, titleId: string, variable: string): Result<seq<byte>, FakeTicketError> {
    var id, key := Hex.FromHex(Hex.ZFill(titleId, 16)), LoadCommonKey(variable);
    if id.None? then Err(TitleIdNotHex)
    else if key.Err? then Err(CommonKey(key.error))
    else if |id.value| != 8 then Err(TitleIdWrongLength)
    else Ok(CetkLayout(id.value, Cbc.Encrypt(cipher, key.value, TicketIv(id.value), Zeros(16))))
  }

  /** Building it by patching a zero buffer. */
  method GenerateFakeCetk(cipher: Cbc.BlockCipher, titleId: string, variable: string)
    returns (r: Result<seq<byte>, FakeTicketError>)
    ensures r == FakeCetk(cipher, titleId, variable)
  {
    var id := Hex.FromHex(Hex.ZFill(titleId, 16));
    if id.None? { return Err(TitleIdNotHex); }
    var key := LoadCommonKey(variable);
    if key.Err? { return Err(CommonKey(key.error)); }
    // A wrong number of bytes makes a wrong-sized initial value, which the cipher refuses.
    if |id.value| != 8 { return Err(TitleIdWrongLength); }

    var buf := new byte[FAKE_CETK_SIZE](i => 0);
    assert buf[..] == Zeros(FAKE_CETK_SIZE);
    Patch(buf, TITLE_ID_OFFSET, id.value);
    var encrypted := Cbc.Encrypt(cipher, key.value, TicketIv(id.value), Zeros(16));
    Patch(buf, ENCRYPTED_TITLE_KEY_OFFSET, encrypted);
    PatchedIsLayout(id.value, encrypted, buf[..]);
    return Ok(buf[..]);
  }

  /** Slice assignment of equal length. */
  method Patch(buf: array<byte>, offset: nat, bytes: seq<byte>)
    requires offset + |bytes| <= buf.Length
    modifies buf
    ensures buf[..] == old(buf[..offset]) + bytes + old(buf[offset + |bytes|..])
  {
    for i := 0 to |bytes|
      invariant forall k | 0 <= k < buf.Length ::
                  buf[k] == if offset <= k < offset + i then bytes[k - offset] else old(buf[k])
    {
      buf[offset + i] := bytes[i];
    }
  }

  /** The two fields do not overlap. */
  lemma LayoutSlots(titleIdBytes: seq<byte>, encrypted: seq<byte>)
    requires |titleIdBytes| == 8 && |encrypted| == 16
    ensures var cetk := CetkLayout(titleIdBytes, encrypted);
            && cetk[ENCRYPTED_TITLE_KEY_OFFSET..ENCRYPTED_TITLE_KEY_OFFSET + 16] == encrypted
            && cetk[TITLE_ID_OFFSET..TITLE_ID_OFFSET + 8] == titleIdBytes
  {
  }

  /** A generated ticket parses back to the padded title id and the all-zero title key. */
  lemma FakeTicketParsesBack(cipher: Cbc.BlockCipher, titleId: string, variable: string)
    requires Cbc.Inverts(cipher)
    requires Hex.AllHex(titleId) && |titleId| <= 16 && LoadCommonKey(variable).Ok?
    ensures var cetk := FakeCetk(cipher, titleId, variable);
            && cetk.Ok?
            && var parsed := ParseTicketBytes(cipher, cetk.value, variable);
               && parsed.Ok?
               && parsed.value.titleId == Hex.Lower(Hex.ZFill(titleId, 16))
               && parsed.value.titleKey == Zeros(16)
  {
    var padded := Hex.ZFill(titleId, 16);
    Hex.HexRoundTrip(padded);
    var id := Hex.FromHex(padded).value;
    var key := LoadCommonKey(variable).value;
    var encrypted := Cbc.Encrypt(cipher, key, TicketIv(id), Zeros(16));
    LayoutSlots(id, encrypted);
    Cbc.DecryptUndoesEncrypt(cipher, key, TicketIv(id), Zeros(16));
  }

  /** Hexadecimal title ids of at most 16 digits are always accepted, longer ones never. */
  lemma HexTitleIdAccepted(titleId: string)
    requires Hex.AllHex(titleId)
    ensures var id := Hex.FromHex(Hex.ZFill(titleId, 16));
            (id.Some? && |id.value| == 8) <==> |titleId| <= 16
  {
    var padded := Hex.ZFill(titleId, 16);
    if |padded| % 2 == 0 {
      Hex.HexRoundTrip(padded);
    } else {
      OddHexRefused(padded);
    }
  }

  lemma {:induction false} OddHexRefused(s: string)
    requires Hex.AllHex(s) && |s| % 2 == 1
    ensures Hex.FromHex(s).None?
  {
    if |s| > 1 { OddHexRefused(s[2..]); }
  }
}
