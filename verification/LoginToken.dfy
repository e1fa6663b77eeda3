/** Login tokens: user name and time stamp, padded to whole cipher blocks, encrypted in CBC mode
    behind a random initialization vector, and written in base64. */
module LoginToken {
  import opened Refs
  import opened Text

  newtype byte = b: int | 0 <= b < 256
  type bytes = seq<byte>

  const BLOCK_SIZE := 16
  const SEMICOLON: byte := 59
  const MINUS: byte := 45
  const PLUS: byte := 43
  const ZERO: byte := 48

  datatype TokenError = Corrupted | Panic

  /** The cipher and the text encoding. Both come from Go's standard library. */
  datatype Codec = Codec(
    encrypt: (bytes, bytes) -> bytes, decrypt: (bytes, bytes) -> bytes,
    encode: bytes -> string, decode: string -> bytes)

  /** CBC decryption (section 6.2 of NIST SP 800-38A) inverts encryption block by block, and base64
      decoding (section 4 of RFC 4648) inverts encoding. */
  ghost predicate Faithful(codec: Codec) {
    && (forall iv, text :: |iv| == BLOCK_SIZE && |text| % BLOCK_SIZE == 0 ==>
          && |codec.encrypt(iv, text)| == |text|
          && codec.decrypt(iv, codec.encrypt(iv, text)) == text)
    && (forall data :: codec.decode(codec.encode(data)) == data)
  }

  // ----- Decimal numbers -----

  predicate IsInt64(n: int) { -0x8000_0000_0000_0000 <= n < 0x8000_0000_0000_0000 }

  function Digits(n: nat): bytes {
    if n < 10 then [ZERO + n as byte] else Digits(n / 10) + [ZERO + (n % 10) as byte]
  }

  function FormatInt(n: int): bytes {
    if n < 0 then [MINUS] + Digits(-n) else Digits(n)
  }

  function ParseDigits(s: bytes): Option<nat> {
    if s == [] then None else
    var last := s[|s| - 1];
    if last < ZERO || ZERO + 9 < last then None
    else if |s| == 1 then Some((last - ZERO) as nat)
    else match ParseDigits(s[..|s| - 1])
      case None => None
      case Some(n) => Some(10 * n + (last - ZERO) as nat)
  }

  /** A sign and decimal digits, within 64 bits. */
  function ParseInt(s: bytes): Option<int> {
    var signed := s != [] && (s[0] == MINUS || s[0] == PLUS);
    match ParseDigits(if signed then s[1..] else s)
    case None => None
    case Some(n) =>
      var size: int := n;
      var value := if signed && s[0] == MINUS then -size else size;
      if IsInt64(value) then Some(value) else None
  }

  lemma {:induction false} ParseUndoesDigits(n: nat)
    ensures ParseDigits(Digits(n)) == Some(n)
    ensures forall d :: d in Digits(n) ==> ZERO <= d <= ZERO + 9
    ensures Digits(n) != []
  {
    if n < 10 {
    } else {
      ParseUndoesDigits(n / 10);
      assert Digits(n)[..|Digits(n)| - 1] == Digits(n / 10);
    }
  }

  lemma ParseSigned(digits: bytes, n: int)
    requires ParseDigits(digits) == Some(-n) && IsInt64(n)
    ensures ParseInt([MINUS] + digits) == Some(n)
  {
    var s := [MINUS] + digits;
    assert s[0] == MINUS && s[1..] == digits;
  }

  lemma ParseUndoesMinus(n: int)
    requires n < 0 && IsInt64(n)
    ensures ParseInt([MINUS] + Digits(-n)) == Some(n)
    ensures SEMICOLON !in [MINUS] + Digits(-n)
  {
    ParseUndoesDigits(-n);
    ParseSigned(Digits(-n), n);
  }

  lemma ParseUndoesPlain(n: nat)
    requires IsInt64(n)
    ensures ParseInt(Digits(n)) == Some(n)
    ensures SEMICOLON !in Digits(n)
  {
    ParseUndoesDigits(n);
    assert Digits(n)[0] in Digits(n);
  }

  lemma ParseUndoesFormat(n: int)
    requires IsInt64(n)
    ensures ParseInt(FormatInt(n)) == Some(n)
    ensures SEMICOLON !in FormatInt(n)
  {
    if n < 0 {
      ParseUndoesMinus(n);
    } else {
      ParseUndoesPlain(n);
    }
  }

  // ----- Tokens -----

  function UserInfo(userName: bytes, time: int): bytes {
    userName + [SEMICOLON] + FormatInt(time) + [SEMICOLON]
  }

  function PaddedLength(n: nat): nat
    requires n > 0
  {
    BLOCK_SIZE * (1 + (n - 1) / BLOCK_SIZE)
  }

  /** Padding fills up the last block and no more. */
  lemma PaddingIsMinimal(n: nat)
    requires n > 0
    ensures PaddedLength(n) % BLOCK_SIZE == 0
    ensures n <= PaddedLength(n) < n + BLOCK_SIZE
  {
  }

  function Padded(info: bytes): bytes
    requires info != []
  {
    PaddingIsMinimal(|info|);
    info + seq(PaddedLength(|info|) - |info|, _ => 0)
  }

  function Token(codec: Codec, iv: bytes, userName: bytes, time: int): string {
    codec.encode(iv + codec.encrypt(iv, Padded(UserInfo(userName, time))))
  }

  /** A buffer of zeros, with src copied to its start. */
  method MakeAndCopy(length: nat, src: bytes) returns (buffer: array<byte>)
    requires |src| <= length
    ensures fresh(buffer) && buffer[..] == src + seq(length - |src|, _ => 0)
  {
    buffer := new byte[length](_ => 0);
    forall i | 0 <= i < |src| {
      buffer[i] := src[i];
    }
  }

  method CopyBehind(dst: array<byte>, start: bytes, src: bytes)
    requires dst.Length == |start| + |src| && dst[..|start|] == start
    modifies dst
    ensures dst[..] == start + src
  {
    forall i | 0 <= i < |src| {
      dst[|start| + i] := src[i];
    }
    assert dst[..|start|] == start && dst[|start|..] == src;
    assert dst[..] == dst[..|start|] + dst[|start|..];
  }

  /** The initialization vector with the encrypted blocks behind it. */
  method EncryptBehind(codec: Codec, iv: bytes, padded: bytes) returns (data: bytes)
    requires Faithful(codec) && |iv| == BLOCK_SIZE && |padded| % BLOCK_SIZE == 0
    ensures data == iv + codec.encrypt(iv, padded)
  {
    var dst := MakeAndCopy(BLOCK_SIZE + |padded|, iv);
    var blocks := codec.encrypt(iv, padded);
    assert |blocks| == |padded| && dst[..][..|iv|] == iv;
    CopyBehind(dst, iv, blocks);
    data := dst[..];
  }

  method GenerateToken(codec: Codec, iv: bytes, userName: bytes, time: int) returns (token: string)
    requires Faithful(codec) && |iv| == BLOCK_SIZE
    ensures token == Token(codec, iv, userName, time)
  {
    var userInfo := UserInfo(userName, time);
    PaddingIsMinimal(|userInfo|);
    var padded := MakeAndCopy(PaddedLength(|userInfo|), userInfo);
    assert padded[..] == Padded(userInfo);
    var data := EncryptBehind(codec, iv, padded[..]);
    token := codec.encode(data);
  }

  function ReadUserInfo(text: bytes): Result<(bytes, int), TokenError> {
    var parts := Split(text, [SEMICOLON]);
    if |parts| < 2 then Err(Corrupted) else
    match ParseInt(parts[1])
    case None => Err(Corrupted)
    case Some(time) => Ok((parts[0], time))
  }

  function DecodeToken(codec: Codec, token: string): Result<(bytes, int), TokenError> {
    var data := codec.decode(token);
    if |data| < BLOCK_SIZE || |data| % BLOCK_SIZE != 0 then Err(Panic)
    else ReadUserInfo(codec.decrypt(data[..BLOCK_SIZE], data[BLOCK_SIZE..]))
  }

  lemma DecodeBlocks(codec: Codec, iv: bytes, text: bytes)
    requires Faithful(codec) && |iv| == BLOCK_SIZE && |text| % BLOCK_SIZE == 0
    ensures DecodeToken(codec, codec.encode(iv + codec.encrypt(iv, text))) == ReadUserInfo(text)
  {
    var blocks := codec.encrypt(iv, text);
    assert |blocks| == |text|;
    var data := iv + blocks;
    assert codec.decode(codec.encode(data)) == data;
    assert data[..BLOCK_SIZE] == iv && data[BLOCK_SIZE..] == blocks;
  }

  lemma TokenHoldsPaddedInfo(codec: Codec, iv: bytes, userName: bytes, time: int)
    requires Faithful(codec) && |iv| == BLOCK_SIZE
    ensures DecodeToken(codec, Token(codec, iv, userName, time))
         == ReadUserInfo(Padded(UserInfo(userName, time)))
  {
    PaddingIsMinimal(|UserInfo(userName, time)|);
    DecodeBlocks(codec, iv, Padded(UserInfo(userName, time)));
  }

  lemma ReadsPlainName(userName: bytes, time: int, zeros: bytes)
    requires IsInt64(time) && SEMICOLON !in userName
    ensures ReadUserInfo(UserInfo(userName, time) + zeros) == Ok((userName, time))
  {
    ParseUndoesFormat(time);
    var stamp := FormatInt(time);
    var rest := stamp + [SEMICOLON] + zeros;
    assert UserInfo(userName, time) + zeros == userName + [SEMICOLON] + rest;
    SplitAtFirst(userName, SEMICOLON, rest);
    SplitAtFirst(stamp, SEMICOLON, zeros);
    assert Split(rest, [SEMICOLON])[0] == stamp;
  }

  lemma MisreadsNameWithSemicolon(userName: bytes, more: bytes, time: int)
    requires SEMICOLON in userName
    ensures ReadUserInfo(userName + more) != Ok((userName, time))
  {
    var head, tail := FirstOccurrence(userName, SEMICOLON);
    var rest := tail + more;
    assert userName + more == head + [SEMICOLON] + rest;
    SplitAtFirst(head, SEMICOLON, rest);
    assert |head| < |userName|;
  }

  /** Decoding undoes generating for the user names without a semicolon and for no others. */
  lemma DecodeUndoesGenerate(codec: Codec, iv: bytes, userName: bytes, time: int)
    requires Faithful(codec) && |iv| == BLOCK_SIZE && IsInt64(time)
    ensures DecodeToken(codec, Token(codec, iv, userName, time)) == Ok((userName, time))
       <==> SEMICOLON !in userName
  {
    TokenHoldsPaddedInfo(codec, iv, userName, time);
    var info := UserInfo(userName, time);
    if SEMICOLON !in userName {
      ReadsPlainName(userName, time, Padded(info)[|info|..]);
      assert Padded(info) == info + Padded(info)[|info|..];
    } else {
      MisreadsNameWithSemicolon(userName, Padded(info)[|userName|..], time);
      assert Padded(info) == userName + Padded(info)[|userName|..];
    }
  }
}
