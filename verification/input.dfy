/**
 * Keyboard decoding (src/pres/input.rs): one key is read from the raw byte
 * stream of the terminal.  Arrow keys are the escape sequences ESC [ A and
 * ESC [ B; `q` and Ctrl-C quit; DEL and BS erase; printable ASCII is a
 * character; everything else is an unknown key.
 */
module Input {
  type Byte = b: int | 0 <= b < 256

  datatype Key = Up | Down | Enter | Quit | Backspace | Char(c: char) | Unknown

  /** `Result<Key, io::Error>`: a read fails only when the stream yields no byte at all. */
  datatype KeyRead = KeyOk(key: Key) | ReadFailed

  const Esc: Byte := 0x1b

  /** `u8::is_ascii_punctuation`. */
  predicate IsAsciiPunctuation(b: Byte) {
    (0x21 <= b <= 0x2F) || (0x3A <= b <= 0x40) || (0x5B <= b <= 0x60) || (0x7B <= b <= 0x7E)
  }

  predicate IsAsciiAlphanumeric(b: Byte) {
    (0x30 <= b <= 0x39) || (0x41 <= b <= 0x5A) || (0x61 <= b <= 0x7A)
  }

  /** Characters a key press can deliver as `Key::Char`. */
  predicate Typeable(c: char) {
    c == ' ' || (c as int < 256 && ((IsAsciiAlphanumeric(c as int) && c != 'q') || IsAsciiPunctuation(c as int)))
  }

  /** A single byte that is not part of an escape sequence. */
  function DecodeByte(b: Byte): Key {
    if b == '\n' as int || b == '\r' as int then Enter
    else if b == 'q' as int || b == 3 then Quit
    else if b == 0x7f || b == 0x08 then Backspace
    else if b == ' ' as int then Char(' ')
    else if IsAsciiAlphanumeric(b) || IsAsciiPunctuation(b) then Char(b as char)
    else Unknown
  }

  /**
   * `read_key`: the decoded key and the number of bytes taken from `stdin`.
   * After ESC a second byte is always taken; a third only when the second is `[`.
   */
  function ReadKey(stdin: seq<Byte>): (r: (KeyRead, nat))
    ensures r.1 <= |stdin| && r.1 <= 3
    ensures r.0 == ReadFailed <==> |stdin| == 0
    ensures r.0.KeyOk? ==> r.1 >= 1
    ensures r.0.KeyOk? && r.0.key.Char? ==> Typeable(r.0.key.c) && r.1 == 1
    ensures r.0.KeyOk? && (r.0.key == Up || r.0.key == Down) ==> r.1 == 3
  {
    if |stdin| == 0 then (ReadFailed, 0)
    else if stdin[0] == Esc then
      if |stdin| == 1 then (KeyOk(Unknown), 1)
      else if stdin[1] != '[' as int then (KeyOk(Unknown), 2)
      else if |stdin| == 2 then (KeyOk(Unknown), 2)
      else if stdin[2] == 'A' as int then (KeyOk(Up), 3)
      else if stdin[2] == 'B' as int then (KeyOk(Down), 3)
      else (KeyOk(Unknown), 3)
    else (KeyOk(DecodeByte(stdin[0])), 1)
  }

  /** The bytes a terminal sends for a key. */
  function KeyBytes(k: Key): seq<Byte>
    requires k != Unknown
    requires k.Char? ==> Typeable(k.c)
  {
    match k
    case Up => [Esc, '[' as int, 'A' as int]
    case Down => [Esc, '[' as int, 'B' as int]
    case Enter => ['\r' as int]
    case Quit => ['q' as int]
    case Backspace => [0x7f]
    case Char(c) => [c as int]
  }

  /** Decoding the bytes of any known key, whatever follows them, yields that key and consumes exactly its bytes. */
  lemma ReadKeyBytes(k: Key, rest: seq<Byte>)
    requires k != Unknown
    requires k.Char? ==> Typeable(k.c)
    ensures ReadKey(KeyBytes(k) + rest) == (KeyOk(k), |KeyBytes(k)|)
  {
    var s := KeyBytes(k) + rest;
    if k.Char? {
      assert s[0] == k.c as int;
      assert (k.c as int) as char == k.c;
    }
  }
}
