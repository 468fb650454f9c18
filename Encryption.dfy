/** src/auth/EncryptionService.ts: AES-256-CBC (section 6.2 of NIST SP
    800-38A) behind an `iv:ciphertext` framing in lower-case hexadecimal
    (Base16, section 8 of RFC 4648). The block cipher, its padding and the
    UTF-8 coding of the text are uninterpreted: a `Cipher` value. */
module Encryption {
  import opened Common
  import opened Strings

  type byte = x: int | 0 <= x < 256

  /** AES-256 takes a 32-byte key; CBC a 16-byte initialization vector. */
  const KEY_LENGTH: nat := 32
  const IV_LENGTH: nat := 16

  /** The value of a hexadecimal digit, either case, as Node's hex decoder reads it. */
  function HexValue(c: char): (v: Option<int>)
    ensures v.Some? ==> 0 <= v.value < 16
    ensures c == ':' ==> v.None?
  {
    if '0' <= c <= '9' then Some(c as int - '0' as int)
    else if 'a' <= c <= 'f' then Some(c as int - 'a' as int + 10)
    else if 'A' <= c <= 'F' then Some(c as int - 'A' as int + 10)
    else None
  }

  /** The lower-case digit for a value below 16. */
  function HexDigit(n: int): (c: char)
    requires 0 <= n < 16
    ensures HexValue(c) == Some(n)
    ensures !('A' <= c <= 'F')
  {
    if n < 10 then ('0' as int + n) as char else ('a' as int + n - 10) as char
  }

  /** buf.toString('hex'): two lower-case digits per byte, high nibble first. */
  function HexEncode(b: seq<byte>): (s: string)
    ensures |s| == 2 * |b|
    ensures forall i :: 0 <= i < |s| ==> HexValue(s[i]).Some?
    decreases |b|
  {
    if |b| == 0 then ""
    else [HexDigit(b[0] / 16), HexDigit(b[0] % 16)] + HexEncode(b[1..])
  }

  /** Buffer.from(s, 'hex'): bytes from pairs of digits, stopping at the
      first pair that is not two digits; a lone trailing digit is dropped. */
  function HexDecode(s: string): (b: seq<byte>)
    ensures 2 * |b| <= |s|
    decreases |s|
  {
    if |s| < 2 then []
    else
      match (HexValue(s[0]), HexValue(s[1]))
      case (Some(hi), Some(lo)) => [hi * 16 + lo] + HexDecode(s[2..])
      case _ => []
  }

  /** Hex decoding undoes hex encoding. */
  lemma {:induction false} HexDecodeEncode(b: seq<byte>)
    ensures HexDecode(HexEncode(b)) == b
    decreases |b|
  {
    if |b| > 0 {
      var s := HexEncode(b);
      assert s[2..] == HexEncode(b[1..]);
      HexDecodeEncode(b[1..]);
      assert b == [b[0] / 16 * 16 + b[0] % 16] + b[1..];
    }
  }

  /** Hex encoding a concatenation concatenates the encodings, which is why
      `encrypted += cipher.final('hex')` yields the encoding of the whole
      ciphertext. */
  lemma {:induction false} HexEncodeAppend(a: seq<byte>, b: seq<byte>)
    ensures HexEncode(a + b) == HexEncode(a) + HexEncode(b)
    decreases |a|
  {
    if |a| > 0 {
      assert (a + b)[1..] == a[1..] + b;
      HexEncodeAppend(a[1..], b);
    } else {
      assert a + b == b;
    }
  }

  /** The cipher as node's crypto module drives it: `encipher` gives what
      update() and final() of a Cipheriv return for a text; `decipher` gives
      what update() of a Decipheriv returns and what final() returns, or None
      when final() rejects the padding. */
  datatype Cipher = Cipher(
    encipher: (seq<byte>, seq<byte>, string) -> (seq<byte>, seq<byte>),
    decipher: (seq<byte>, seq<byte>, seq<byte>) -> (string, Option<string>))

  /** Deciphering under the key and IV a text was enciphered with gives
      back the text. */
  ghost predicate Inverse(c: Cipher)
  {
    forall key: seq<byte>, iv: seq<byte>, t: string {:trigger c.encipher(key, iv, t)} ::
      |key| == KEY_LENGTH && |iv| == IV_LENGTH ==>
        var e := c.encipher(key, iv, t);
        var d := c.decipher(key, iv, e.0 + e.1);
        d.1.Some? && d.0 + d.1.value == t
  }

  /** The text encrypt returns for an IV and a ciphertext. */
  function Frame(iv: seq<byte>, ciphertext: seq<byte>): (s: string)
    ensures |s| == 2 * |iv| + 1 + 2 * |ciphertext|
    ensures s[2 * |iv|] == ':' && ':' !in s[..2 * |iv|]
  {
    HexEncode(iv) + ":" + HexEncode(ciphertext)
  }

  /** How decrypt reads a text: the IV is the part before the first ':',
      the ciphertext the remaining parts joined with ':' again. */
  function ParseFrame(s: string): (p: (seq<byte>, seq<byte>))
  {
    var textParts := Split(s, ':');
    (HexDecode(textParts[0]), HexDecode(Join(textParts[1..], ':')))
  }

  /** decrypt's parse recovers exactly what encrypt framed, since hex
      digits contain no ':'. */
  lemma ParseFrameOfFrame(iv: seq<byte>, ciphertext: seq<byte>)
    ensures ParseFrame(Frame(iv, ciphertext)) == (iv, ciphertext)
    ensures Split(Frame(iv, ciphertext), ':')[0] == HexEncode(iv)
  {
    var head := HexEncode(iv);
    var tail := HexEncode(ciphertext);
    assert Frame(iv, ciphertext) == head + [':'] + tail;
    SplitAtFirst(head, tail, ':');
    var parts := Split(Frame(iv, ciphertext), ':');
    assert parts[1..] == Split(tail, ':');
    JoinSplit(tail, ':');
    HexDecodeEncode(iv);
    HexDecodeEncode(ciphertext);
  }

  /** A text without ':' is all IV and an empty ciphertext. */
  lemma ParseWithoutColon(s: string)
    requires ':' !in s
    ensures ParseFrame(s) == (HexDecode(s), [])
  {
    SplitWithoutSep(s, ':');
  }

  class EncryptionService {
    /** The hex decoding of the configured key; 32 bytes are expected but
        not checked until a cipher is created. */
    const encryptionKey: seq<byte>
    const ivLength: nat := IV_LENGTH
    const cipher: Cipher

    constructor (key: string, cipher: Cipher)
      ensures encryptionKey == HexDecode(key) && this.cipher == cipher
    {
      encryptionKey := HexDecode(key);
      this.cipher := cipher;
    }

    /** encrypt, with the random IV as a parameter: the hex IV, ':', and the
        hex ciphertext; a key that is not 32 bytes makes createCipheriv throw. */
    method Encrypt(text: string, iv: seq<byte>) returns (r: Result<string>)
      requires |iv| == ivLength
      ensures |encryptionKey| != KEY_LENGTH ==> r == Err(CryptoError("Invalid key length"))
      ensures |encryptionKey| == KEY_LENGTH ==>
                var e := cipher.encipher(encryptionKey, iv, text);
                r == Ok(Frame(iv, e.0 + e.1))
      ensures r.Ok? ==> |Split(r.value, ':')[0]| == 2 * IV_LENGTH && ParseFrame(r.value).0 == iv
    {
      if |encryptionKey| != KEY_LENGTH {
        return Err(CryptoError("Invalid key length"));
      }
      var e := cipher.encipher(encryptionKey, iv, text);
      var encrypted := HexEncode(e.0);
      encrypted := encrypted + HexEncode(e.1);
      HexEncodeAppend(e.0, e.1);
      r := Ok(HexEncode(iv) + ":" + encrypted);
      ParseFrameOfFrame(iv, e.0 + e.1);
    }

    /** decrypt: the IV must decode to 16 bytes and the key be 32 bytes,
        else createDecipheriv throws; final() throws on a bad padding. */
    method Decrypt(encryptedText: string) returns (r: Result<string>)
      ensures var p := ParseFrame(encryptedText);
              |p.0| != IV_LENGTH ==> r == Err(CryptoError("Invalid initialization vector"))
      ensures var p := ParseFrame(encryptedText);
              |p.0| == IV_LENGTH && |encryptionKey| != KEY_LENGTH ==> r == Err(CryptoError("Invalid key length"))
      ensures var p := ParseFrame(encryptedText);
              var d := cipher.decipher(encryptionKey, p.0, p.1);
              |p.0| == IV_LENGTH && |encryptionKey| == KEY_LENGTH ==>
                r == (if d.1.Some? then Ok(d.0 + d.1.value) else Err(CryptoError("bad decrypt")))
    {
      var textParts := Split(encryptedText, ':');
      var iv := HexDecode(textParts[0]);
      textParts := textParts[1..];
      var encrypted := Join(textParts, ':');
      if |iv| != IV_LENGTH {
        return Err(CryptoError("Invalid initialization vector"));
      }
      if |encryptionKey| != KEY_LENGTH {
        return Err(CryptoError("Invalid key length"));
      }
      var d := cipher.decipher(encryptionKey, iv, HexDecode(encrypted));
      var decrypted := d.0;
      if d.1.None? {
        return Err(CryptoError("bad decrypt"));
      }
      decrypted := decrypted + d.1.value;
      r := Ok(decrypted);
    }
  }

  /** decrypt(encrypt(t)) == t for a 32-byte key and a cipher whose
      decipher undoes its encipher. */
  method EncryptThenDecrypt(service: EncryptionService, text: string, iv: seq<byte>)
    returns (encrypted: Result<string>, decrypted: Result<string>)
    requires |iv| == IV_LENGTH && |service.encryptionKey| == KEY_LENGTH
    requires Inverse(service.cipher)
    ensures encrypted.Ok? && decrypted == Ok(text)
  {
    encrypted := service.Encrypt(text, iv);
    var e := service.cipher.encipher(service.encryptionKey, iv, text);
    ParseFrameOfFrame(iv, e.0 + e.1);
    decrypted := service.Decrypt(encrypted.value);
  }
}
