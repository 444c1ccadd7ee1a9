/** The string rules the server applies to what clients send: the username
    check of `GameServer.valid_username`, the upper-casing of lobby codes and
    the truncate-then-strip normalisation of chat text. */
module Text {

  const MIN_USERNAME_LEN := 3
  const MAX_USERNAME_LEN := 16
  const MAX_CHAT_LEN := 100

  /** An ASCII letter or digit (the ASCII part of Python's `str.isalnum`). */
  predicate IsAlnumChar(c: char) {
    ('a' <= c <= 'z') || ('A' <= c <= 'Z') || ('0' <= c <= '9')
  }

  /** Python's `str.isalnum`: non-empty and every character alphanumeric. */
  predicate IsAlnum(s: string) {
    |s| > 0 && forall i | 0 <= i < |s| :: IsAlnumChar(s[i])
  }

  /** `valid_username`: between 3 and 16 characters, all alphanumeric. */
  function ValidUsername(username: string): (ok: bool)
    ensures ok <==> MIN_USERNAME_LEN <= |username| <= MAX_USERNAME_LEN
                    && forall i | 0 <= i < |username| :: IsAlnumChar(username[i])
  {
    MIN_USERNAME_LEN <= |username| <= MAX_USERNAME_LEN && IsAlnum(username)
  }

  function UpperChar(c: char): char {
    if 'a' <= c <= 'z' then (c as int - 'a' as int + 'A' as int) as char else c
  }

  /** Python's `str.upper` on ASCII text. */
  function Upper(s: string): (r: string)
    ensures |r| == |s|
    ensures forall i | 0 <= i < |s| :: r[i] == UpperChar(s[i])
  {
    seq(|s|, i requires 0 <= i < |s| => UpperChar(s[i]))
  }

  /** Upper-casing twice is upper-casing once. */
  lemma UpperIdempotent(s: string)
    ensures Upper(Upper(s)) == Upper(s)
  {
  }

  const HEX_DIGITS := "0123456789ABCDEF"

  /** A lobby code: the first four characters of a UUID's text, upper-cased. */
  predicate IsLobbyCode(s: string) {
    |s| == 4 && forall i | 0 <= i < |s| :: s[i] in HEX_DIGITS
  }

  /** The handlers upper-case the code a client sends; a generated code is
      already upper-case, so upper-casing leaves it as it is. */
  lemma UpperKeepsLobbyCodes(code: string)
    requires IsLobbyCode(code)
    ensures Upper(code) == code
  {
  }

  function LowerChar(c: char): char {
    if 'A' <= c <= 'Z' then (c as int - 'A' as int + 'a' as int) as char else c
  }

  /** Whatever case the client types a generated code in, upper-casing
      what it typed gives back the code, so the lookup finds the lobby. */
  lemma UpperFindsTypedCode(code: string, typed: string)
    requires IsLobbyCode(code) && |typed| == |code|
    requires forall i | 0 <= i < |typed| :: typed[i] == code[i] || typed[i] == LowerChar(code[i])
    ensures Upper(typed) == code
  {
  }

  /** Python's `str.isspace` for a single character. */
  predicate IsSpace(c: char) {
    c == ' ' || '\t' <= c <= '\r' || '\U{1C}' <= c <= '\U{1F}' || c == '\U{85}' || c == '\U{A0}'
    || c == '\U{1680}' || '\U{2000}' <= c <= '\U{200A}' || c == '\U{2028}' || c == '\U{2029}'
    || c == '\U{202F}' || c == '\U{205F}' || c == '\U{3000}'
  }

  predicate AllSpace(s: string) {
    forall i | 0 <= i < |s| :: IsSpace(s[i])
  }

  /** The length of the whitespace run at the start of `s`. */
  function LeadingSpace(s: string): (n: nat)
    ensures n <= |s|
    ensures AllSpace(s[..n])
    ensures n < |s| ==> !IsSpace(s[n])
  {
    if s == [] || !IsSpace(s[0]) then 0 else 1 + LeadingSpace(s[1..])
  }

  /** The length of the whitespace run at the end of `s`. */
  function TrailingSpace(s: string): (n: nat)
    ensures n <= |s|
    ensures AllSpace(s[|s| - n..])
    ensures n < |s| ==> !IsSpace(s[|s| - n - 1])
  {
    if s == [] || !IsSpace(s[|s| - 1]) then 0 else 1 + TrailingSpace(s[..|s| - 1])
  }

  /** Python's `str.strip()`: the slice of `s` left once the whitespace at
      both ends is removed. */
  function Strip(s: string): (r: string)
    ensures |r| <= |s|
    ensures r == [] <==> AllSpace(s)
    ensures r != [] ==> !IsSpace(r[0]) && !IsSpace(r[|r| - 1])
    ensures exists a | 0 <= a <= |s| - |r| :: r == s[a..a + |r|] && AllSpace(s[..a]) && AllSpace(s[a + |r|..])
  {
    var a := LeadingSpace(s);
    var b := TrailingSpace(s[a..]);
    assert AllSpace(s) ==> a == |s|;
    assert s[a..][|s[a..]| - b..] == s[|s| - b..];
    s[a..|s| - b]
  }

  /** Stripping is idempotent. */
  lemma StripIdempotent(s: string)
    ensures Strip(Strip(s)) == Strip(s)
  {
    var r := Strip(s);
    if r != [] {
      assert LeadingSpace(r) == 0;
      assert TrailingSpace(r) == 0;
    }
  }

  /** The text `handle_chat_message` stores: the first 100 characters of
      what was sent, stripped of surrounding whitespace. */
  function ChatText(raw: string): (text: string)
    ensures |text| <= MAX_CHAT_LEN
    ensures text == [] <==> AllSpace(if |raw| <= MAX_CHAT_LEN then raw else raw[..MAX_CHAT_LEN])
  {
    Strip(if |raw| <= MAX_CHAT_LEN then raw else raw[..MAX_CHAT_LEN])
  }
}
