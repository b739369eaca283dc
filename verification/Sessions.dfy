/** The file name component that stands for a Herdr session
    (`herdr_session_storage_key` in src/model.rs). */
module Sessions {
  import opened Wrappers
  import opened Utf8
  import Detect

  predicate ValidSession(session: string) {
    && session != [] && ByteLength(session) <= 64
    && forall i :: 0 <= i < |session| ==> !Detect.IsControl(session[i]) && session[i] != '/' && session[i] != '\\'
  }

  function HexDigit(n: nat): (c: char)
    requires n < 16
  {
    if n < 10 then '0' + n as char else 'a' + (n - 10) as char
  }

  /** Two lower-case hexadecimal digits per byte. */
  function Hex(bytes: seq<Byte>): string {
    if bytes == [] then [] else [HexDigit(bytes[0] / 16), HexDigit(bytes[0] % 16)] + Hex(bytes[1..])
  }

  function StorageKey(session: string): Option<string> {
    if !ValidSession(session) then None
    else if session == "default" then Some("default")
    else Some("session-" + Hex(Encode(session)))
  }

  lemma {:induction false} HexInjective(a: seq<Byte>, b: seq<Byte>)
    requires Hex(a) == Hex(b)
    ensures a == b
  {
    if a != [] && b != [] {
      assert Hex(a)[0] == HexDigit(a[0] / 16) && Hex(a)[1] == HexDigit(a[0] % 16) && Hex(a)[2..] == Hex(a[1..]);
      assert Hex(b)[0] == HexDigit(b[0] / 16) && Hex(b)[1] == HexDigit(b[0] % 16) && Hex(b)[2..] == Hex(b[1..]);
      assert a[0] == a[0] / 16 * 16 + a[0] % 16 && b[0] == b[0] / 16 * 16 + b[0] % 16;
      HexInjective(a[1..], b[1..]);
      assert a == [a[0]] + a[1..] && b == [b[0]] + b[1..];
    }
  }

  lemma OtherKey(session: string)
    requires ValidSession(session) && session != "default"
    ensures StorageKey(session) == Some("session-" + Hex(Encode(session))) && StorageKey(session) != Some("default")
  {
    hide Encode, ValidSession, Hex;
    var key := "session-" + Hex(Encode(session));
    assert key[0] == 's' && "default"[0] == 'd';
  }

  lemma DefaultKey()
    ensures ValidSession("default") ==> StorageKey("default") == Some("default")
  {
  }

  /** Characters that are safe in a file name. */
  predicate FileNameCharacter(c: char) { 'a' <= c <= 'z' || '0' <= c <= '9' || c == '-' }

  lemma {:induction false} HexIsSafe(bytes: seq<Byte>)
    ensures |Hex(bytes)| == 2 * |bytes| && forall i :: 0 <= i < |Hex(bytes)| ==> FileNameCharacter(Hex(bytes)[i])
  {
    if bytes != [] {
      HexIsSafe(bytes[1..]);
      var digits := [HexDigit(bytes[0] / 16), HexDigit(bytes[0] % 16)];
      assert Hex(bytes) == digits + Hex(bytes[1..]);
    }
  }

  /** Exactly the sessions of 1 to 64 bytes without control characters and separators have
      a storage key, and it is a short file name of safe characters. */
  lemma StorageKeyIsSafe(session: string)
    ensures StorageKey(session).Some? <==>
            && 1 <= ByteLength(session) <= 64
            && forall i :: 0 <= i < |session| ==> !Detect.IsControl(session[i]) && session[i] !in "/\\"
    ensures StorageKey(session).Some? ==>
              var key := StorageKey(session).value;
              |key| <= 136 && forall i :: 0 <= i < |key| ==> FileNameCharacter(key[i])
  {
    hide Detect.IsControl, Hex;
    HexIsSafe(Encode(session));
    EncodeNothing(session);
  }

  lemma EncodeNothing(session: string)
    ensures ByteLength(session) == |Encode(session)| && (ByteLength(session) == 0 <==> session == [])
  {
  }

  /** Two sessions never share their files. */
  lemma StorageKeysAreDistinct(a: string, b: string)
    requires ValidSession(a) && ValidSession(b) && StorageKey(a) == StorageKey(b)
    ensures a == b
  {
    hide Encode, ValidSession, Hex, StorageKey;
    DefaultKey();
    if a != "default" { OtherKey(a); }
    if b != "default" { OtherKey(b); }
    if a != "default" && b != "default" {
      var keyA, keyB := "session-" + Hex(Encode(a)), "session-" + Hex(Encode(b));
      assert keyA[8..] == Hex(Encode(a)) && keyB[8..] == Hex(Encode(b));
      HexInjective(Encode(a), Encode(b));
      DecodeEncoded(a);
      DecodeEncoded(b);
    }
  }
}
