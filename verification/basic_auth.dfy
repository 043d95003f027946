/** The "Basic" HTTP authentication scheme (section 2 of RFC 7617): the user-id and
    password joined by a colon, encoded as UTF-8, then base64, after the word "Basic". */
module BasicAuth {
  import opened Js
  import Utf8
  import Base64

  const Scheme: string := "Basic "

  /** The user-pass string: user-id, a single colon, password. */
  function UserPass(user: string, pass: string): string {
    user + ":" + pass
  }

  /** `Basic ${Buffer.from(`${user}:${pass}`).toString('base64')}`. */
  function Header(user: string, pass: string): (r: string)
    ensures StartsWith(r, Scheme)
  {
    Scheme + Base64.Encode(Utf8.Encode(UserPass(user, pass)))
  }

  /** The index of the first occurrence of `c` in `s`. */
  function FirstIndex(s: string, c: char): (r: Option<nat>)
    ensures r.Some? <==> c in s
    ensures r.Some? ==> r.value < |s| && s[r.value] == c && c !in s[..r.value]
  {
    if |s| == 0 then None
    else if s[0] == c then Some(0)
    else
      match FirstIndex(s[1..], c)
      case None => None
      case Some(i) => assert s[..i + 1] == [s[0]] + s[1..][..i]; Some(i + 1)
  }

  /** How a receiver reads the header: strip the scheme, decode base64 and UTF-8, and split
      at the first colon (a user-id may not contain one, a password may). */
  function Parse(header: string): Option<(string, string)> {
    if !StartsWith(header, Scheme) then None
    else
      match Base64.Decode(header[|Scheme|..])
      case None => None
      case Some(bytes) =>
        match Utf8.Decode(bytes)
        case None => None
        case Some(text) =>
          match FirstIndex(text, ':')
          case None => None
          case Some(i) => Some((text[..i], text[i + 1..]))
  }

  /** A receiver recovers the credentials from the header when the user-id has no colon. */
  lemma RoundTrip(user: string, pass: string)
    requires ':' !in user
    ensures Parse(Header(user, pass)) == Some((user, pass))
  {
    var text := UserPass(user, pass);
    assert Utf8.Decode(Base64.Decode(Header(user, pass)[|Scheme|..]).value) == Some(text) by {
      DecodeBody(text, Header(user, pass));
    }
    SplitAtColon(user, pass);
  }

  /** Past the scheme, the header decodes back to the user-pass string. */
  lemma DecodeBody(text: string, h: string)
    requires h == Scheme + Base64.Encode(Utf8.Encode(text))
    ensures Base64.Decode(h[|Scheme|..]) == Some(Utf8.Encode(text))
    ensures Utf8.Decode(Utf8.Encode(text)) == Some(text)
  {
    assert h[|Scheme|..] == Base64.Encode(Utf8.Encode(text));
    Base64.RoundTrip(Utf8.Encode(text));
    Utf8.RoundTrip(text);
  }

  /** The first colon of the user-pass string is the one after a colon-free user-id. */
  lemma SplitAtColon(user: string, pass: string)
    requires ':' !in user
    ensures var text := UserPass(user, pass);
      && FirstIndex(text, ':') == Some(|user|)
      && text[..|user|] == user && text[|user| + 1..] == pass
  {
    var text := UserPass(user, pass);
    assert text[..|user|] == user;
    assert text[|user|] == ':';
    assert text[|user| + 1..] == pass;
  }

  /** With a colon in the user-id the header is ambiguous: moving the part after the colon
      into the password gives the same header. */
  lemma ColonInUserIsAmbiguous(user: string, rest: string, pass: string)
    ensures Header(user + ":" + rest, pass) == Header(user, rest + ":" + pass)
  {
    assert UserPass(user + ":" + rest, pass) == UserPass(user, rest + ":" + pass);
  }
}
