/** URL text handled by the application: ECMAScript's `encodeURIComponent`
    (with the decoder that inverts it) and a query-string reader standing for
    `new URL(url).searchParams.get(name)`. */
module Uri {
  import Utf8
  import opened JsText
  import opened Wrappers

  // ----- encodeURIComponent -----

  /** The characters `encodeURIComponent` leaves as they are: ASCII letters,
      digits and `- _ . ! ~ * ' ( )`. */
  predicate IsUnreserved(c: char) {
    || ('A' <= c <= 'Z') || ('a' <= c <= 'z') || ('0' <= c <= '9')
    || c == '-' || c == '_' || c == '.' || c == '!' || c == '~'
    || c == '*' || c == '\'' || c == '(' || c == ')'
  }

  predicate IsUpperHex(c: char) {
    ('0' <= c <= '9') || ('A' <= c <= 'F')
  }

  function HexDigit(d: nat): (c: char)
    requires d < 16
    ensures IsUpperHex(c)
  {
    if d < 10 then ('0' as int + d) as char else ('A' as int + (d - 10)) as char
  }

  /** The value of a hexadecimal digit (either case); `None` for other characters. */
  function HexValue(c: char): (r: Option<nat>)
    ensures r.Some? ==> r.value < 16
  {
    if '0' <= c <= '9' then Some(c as int - '0' as int)
    else if 'A' <= c <= 'F' then Some(c as int - 'A' as int + 10)
    else if 'a' <= c <= 'f' then Some(c as int - 'a' as int + 10)
    else None
  }

  /** Each byte as `%` and two upper-case hexadecimal digits. */
  function PercentBytes(b: seq<Utf8.byte>): (r: string)
    ensures |r| == 3 * |b|
    ensures forall i :: 0 <= i < |r| ==> r[i] == '%' || IsUpperHex(r[i])
  {
    if b == [] then [] else ['%', HexDigit(b[0] / 16), HexDigit(b[0] % 16)] + PercentBytes(b[1..])
  }

  /** One character as `encodeURIComponent` writes it. */
  function EncodeChar(c: char): (r: string)
    ensures IsUnreserved(c) ==> r == [c]
    ensures !IsUnreserved(c) ==> |r| >= 3 && r[0] == '%'
    ensures forall i :: 0 <= i < |r| ==> r[i] == '%' || IsUnreserved(r[i])
  {
    if IsUnreserved(c) then [c] else PercentBytes(Utf8.EncodeChar(c))
  }

  /** `encodeURIComponent(s)`. */
  function EncodeUriComponent(s: string): (r: string)
  {
    if s == [] then [] else EncodeChar(s[0]) + EncodeUriComponent(s[1..])
  }

  /** The encoding uses only unreserved characters and `%`; in particular no
      `&`, `=`, `#`, `?`, `+` or white space, so it can stand as one query value. */
  lemma {:induction false} EncodedAlphabet(s: string)
    ensures forall i :: 0 <= i < |EncodeUriComponent(s)| ==> EncodeUriComponent(s)[i] == '%' || IsUnreserved(EncodeUriComponent(s)[i])
  {
    if s != [] {
      EncodedAlphabet(s[1..]);
      var e, t := EncodeChar(s[0]), EncodeUriComponent(s[1..]);
      var r := EncodeUriComponent(s);
      assert r == e + t;
      forall i | 0 <= i < |r| ensures r[i] == '%' || IsUnreserved(r[i]) {
        if i < |e| {
          assert r[i] == e[i];
        } else {
          assert r[i] == t[i - |e|];
        }
      }
    }
  }

  /** The encoding never shortens a string, and keeps its length exactly when
      every character is unreserved, in which case it is the string itself. */
  lemma {:induction false} EncodedLength(s: string)
    ensures |EncodeUriComponent(s)| >= |s|
    ensures (forall i :: 0 <= i < |s| ==> IsUnreserved(s[i])) <==> EncodeUriComponent(s) == s
    ensures (forall i :: 0 <= i < |s| ==> IsUnreserved(s[i])) <==> |EncodeUriComponent(s)| == |s|
  {
    if s != [] {
      EncodedLength(s[1..]);
      var e := EncodeChar(s[0]);
      if IsUnreserved(s[0]) {
        assert (forall i :: 0 <= i < |s| ==> IsUnreserved(s[i])) <==>
               (forall i :: 0 <= i < |s[1..]| ==> IsUnreserved(s[1..][i]));
        assert [s[0]] + s[1..] == s;
      } else {
        assert |EncodeUriComponent(s)| > |s|;
      }
    }
  }

  // ----- application/x-www-form-urlencoded -----

  /** The characters the form serializer of the WHATWG URL Standard leaves as
      they are: ASCII letters, digits and `* - . _`. */
  predicate IsFormSafe(c: char) {
    || ('A' <= c <= 'Z') || ('a' <= c <= 'z') || ('0' <= c <= '9')
    || c == '*' || c == '-' || c == '.' || c == '_'
  }

  /** One character as `URLSearchParams` serializes it: a space is `+`, any other
      character outside the safe set is percent-encoded from its UTF-8 bytes. */
  function FormEncodeChar(c: char): (r: string)
    ensures IsFormSafe(c) ==> r == [c]
    ensures forall i :: 0 <= i < |r| ==> r[i] == '%' || r[i] == '+' || IsFormSafe(r[i]) || IsUpperHex(r[i])
  {
    if IsFormSafe(c) then [c] else if c == ' ' then "+" else PercentBytes(Utf8.EncodeChar(c))
  }

  function FormEncode(s: string): string {
    if s == [] then [] else FormEncodeChar(s[0]) + FormEncode(s[1..])
  }

  /** A form-encoded value has no `&`, `=` or `#`, so it is read back whole as one
      query value. */
  lemma {:induction false} FormEncodedAlphabet(s: string)
    ensures forall i :: 0 <= i < |FormEncode(s)| ==> FormEncode(s)[i] != '&' && FormEncode(s)[i] != '=' && FormEncode(s)[i] != '#'
  {
    if s != [] {
      FormEncodedAlphabet(s[1..]);
      var e, t := FormEncodeChar(s[0]), FormEncode(s[1..]);
      var r := FormEncode(s);
      assert r == e + t;
      forall i | 0 <= i < |r| ensures r[i] != '&' && r[i] != '=' && r[i] != '#' {
        if i < |e| {
          assert r[i] == e[i];
        } else {
          assert r[i] == t[i - |e|];
        }
      }
    }
  }

  /** Text of safe characters is serialized as it is. */
  lemma {:induction false} FormEncodeSafe(s: string)
    requires forall i :: 0 <= i < |s| ==> IsFormSafe(s[i])
    ensures FormEncode(s) == s
  {
    if s != [] {
      FormEncodeSafe(s[1..]);
      assert [s[0]] + s[1..] == s;
    }
  }

  // ----- The decoder -----

  function Prepend(b: seq<Utf8.byte>, r: Option<seq<Utf8.byte>>): Option<seq<Utf8.byte>> {
    match r
    case None => None
    case Some(rest) => Some(b + rest)
  }

  /** The bytes that percent-encoded text stands for: `%XY` is one byte, any
      other character its own UTF-8 bytes; `None` for a `%` not followed by two
      hexadecimal digits. */
  function PercentDecode(s: string): Option<seq<Utf8.byte>>
    decreases |s|
  {
    if s == [] then Some([])
    else if s[0] == '%' then
      if |s| >= 3 && HexValue(s[1]).Some? && HexValue(s[2]).Some? then
        Prepend([HexValue(s[1]).value * 16 + HexValue(s[2]).value], PercentDecode(s[3..]))
      else None
    else Prepend(Utf8.EncodeChar(s[0]), PercentDecode(s[1..]))
  }

  /** `decodeURIComponent(s)`: the text whose UTF-8 bytes `s` percent-encodes. */
  function DecodeUriComponent(s: string): Option<string> {
    match PercentDecode(s)
    case None => None
    case Some(b) =>
      match Utf8.Decode(b)
      case None => None
      case Some(t) => Some(t)
  }

  lemma HexRoundTrip(d: nat)
    requires d < 16
    ensures HexValue(HexDigit(d)) == Some(d)
  {
  }

  lemma PrependPrepend(a: seq<Utf8.byte>, b: seq<Utf8.byte>, r: Option<seq<Utf8.byte>>)
    ensures Prepend(a, Prepend(b, r)) == Prepend(a + b, r)
  {
    match r {
      case None =>
      case Some(x) => assert a + (b + x) == (a + b) + x;
    }
  }

  /** `%XY` in front of a text is read as the one byte it writes. */
  lemma PercentDecodeTriple(x: Utf8.byte, rest: string)
    ensures PercentDecode(['%', HexDigit(x / 16), HexDigit(x % 16)] + rest) == Prepend([x], PercentDecode(rest))
  {
    var s := ['%', HexDigit(x / 16), HexDigit(x % 16)] + rest;
    HexRoundTrip(x / 16);
    HexRoundTrip(x % 16);
    assert s[3..] == rest;
  }

  lemma {:induction false} PercentDecodeBytes(b: seq<Utf8.byte>, rest: string)
    ensures PercentDecode(PercentBytes(b) + rest) == Prepend(b, PercentDecode(rest))
  {
    if b == [] {
      assert PercentBytes(b) + rest == rest;
      match PercentDecode(rest) {
        case None =>
        case Some(r) => assert b + r == r;
      }
    } else {
      var t := ['%', HexDigit(b[0] / 16), HexDigit(b[0] % 16)];
      assert PercentBytes(b) + rest == t + (PercentBytes(b[1..]) + rest);
      PercentDecodeTriple(b[0], PercentBytes(b[1..]) + rest);
      PercentDecodeBytes(b[1..], rest);
      PrependPrepend([b[0]], b[1..], PercentDecode(rest));
      assert [b[0]] + b[1..] == b;
    }
  }

  lemma PercentDecodeChar(c: char, rest: string)
    ensures PercentDecode(EncodeChar(c) + rest) == Prepend(Utf8.EncodeChar(c), PercentDecode(rest))
  {
    if IsUnreserved(c) {
      assert (EncodeChar(c) + rest)[1..] == rest;
    } else {
      PercentDecodeBytes(Utf8.EncodeChar(c), rest);
    }
  }

  lemma {:induction false} PercentDecodeEncode(s: string)
    ensures PercentDecode(EncodeUriComponent(s)) == Some(Utf8.Encode(s))
  {
    if s != [] {
      PercentDecodeChar(s[0], EncodeUriComponent(s[1..]));
      PercentDecodeEncode(s[1..]);
    }
  }

  /** `decodeURIComponent(encodeURIComponent(s)) == s`. */
  lemma DecodeEncode(s: string)
    ensures DecodeUriComponent(EncodeUriComponent(s)) == Some(s)
  {
    PercentDecodeEncode(s);
    Utf8.DecodeEncode(s);
  }

  // ----- Query strings -----

  /** The index of the first `c` in `s`. */
  function IndexOf(s: string, c: char): (r: Option<nat>)
    ensures r.Some? ==> r.value < |s| && s[r.value] == c && forall k :: 0 <= k < r.value ==> s[k] != c
    ensures r.None? ==> forall k :: 0 <= k < |s| ==> s[k] != c
  {
    if s == [] then None
    else if s[0] == c then Some(0)
    else match IndexOf(s[1..], c)
      case None => None
      case Some(i) => Some(i + 1)
  }

  /** The text before the first `c`, or all of it. */
  function Before(s: string, c: char): string {
    match IndexOf(s, c)
    case None => s
    case Some(i) => s[..i]
  }

  /** Splits `s` at every `c`, as `s.split(c)` does. */
  function Split(s: string, c: char): (r: seq<string>)
    ensures |r| >= 1
    decreases |s|
  {
    match IndexOf(s, c)
    case None => [s]
    case Some(i) => [s[..i]] + Split(s[i + 1..], c)
  }

  /** The pieces joined back with `c` between them. */
  function Join(parts: seq<string>, c: char): string
    requires |parts| >= 1
  {
    if |parts| == 1 then parts[0] else parts[0] + [c] + Join(parts[1..], c)
  }

  /** Joining a piece in front of others puts the separator between. */
  lemma JoinCons(first: string, parts: seq<string>, c: char)
    requires |parts| >= 1
    ensures Join([first] + parts, c) == first + [c] + Join(parts, c)
  {
    assert ([first] + parts)[1..] == parts;
  }

  /** A text is its part before index `i`, the character at `i`, and the rest. */
  lemma AroundIndex(s: string, i: nat)
    requires i < |s|
    ensures s[..i] + [s[i]] + s[i + 1..] == s
  {
  }

  /** Splitting loses nothing: joining the pieces gives the text back. */
  lemma {:induction false} SplitJoin(s: string, c: char)
    ensures Join(Split(s, c), c) == s
    decreases |s|
  {
    match IndexOf(s, c)
    case None =>
    case Some(i) =>
      var t := s[i + 1..];
      SplitJoin(t, c);
      JoinCons(s[..i], Split(t, c), c);
      AroundIndex(s, i);
  }

  /** No piece of a split contains the separator. */
  lemma {:induction false} SplitPiecesFree(s: string, c: char)
    ensures var r := Split(s, c); forall j, k :: 0 <= j < |r| && 0 <= k < |r[j]| ==> r[j][k] != c
    decreases |s|
  {
    match IndexOf(s, c)
    case None =>
    case Some(i) =>
      var t := s[i + 1..];
      SplitPiecesFree(t, c);
      var r := Split(s, c);
      assert r == [s[..i]] + Split(t, c);
      forall j, k | 0 <= j < |r| && 0 <= k < |r[j]| ensures r[j][k] != c {
        if j > 0 {
          assert r[j] == Split(t, c)[j - 1];
        } else {
          assert r[0] == s[..i];
          assert k < i && r[j][k] == s[k];
        }
      }
  }

  /** The query of a URL: the text after the first `?`, up to the fragment. */
  function QueryString(url: string): Option<string> {
    var h := Before(url, '#');
    match IndexOf(h, '?')
    case None => None
    case Some(i) => Some(h[i + 1..])
  }

  /** The value of the first `name=value` pair called `name`; a pair without
      `=` has the empty value, and empty pieces are skipped. */
  function FindParam(pairs: seq<string>, name: string): Option<string> {
    if pairs == [] then None
    else
      var p := pairs[0];
      var key := Before(p, '=');
      if p != [] && key == name then
        Some(if |key| < |p| then p[|key| + 1..] else "")
      else FindParam(pairs[1..], name)
  }

  /** `new URL(url).searchParams.get(name)`, without percent-decoding the value. */
  function GetParam(url: string, name: string): Option<string> {
    match QueryString(url)
    case None => None
    case Some(q) => FindParam(Split(q, '&'), name)
  }

  lemma IndexOfAbsent(s: string, c: char)
    requires forall k :: 0 <= k < |s| ==> s[k] != c
    ensures IndexOf(s, c) == None
  {
  }

  lemma IndexOfAt(s: string, c: char, i: nat)
    requires i < |s| && s[i] == c && forall k :: 0 <= k < i ==> s[k] != c
    ensures IndexOf(s, c) == Some(i)
  {
  }

  /** A URL made of a path with no `?` or `#`, then `?name=` and a value with no
      `&` or `#`, gives that value back for `name`. */
  lemma GetSingleParam(path: string, name: string, value: string)
    requires forall k :: 0 <= k < |path| ==> path[k] != '?' && path[k] != '#'
    requires name != [] && forall k :: 0 <= k < |name| ==> name[k] != '=' && name[k] != '&' && name[k] != '#'
    requires forall k :: 0 <= k < |value| ==> value[k] != '&' && value[k] != '#'
    ensures GetParam(path + "?" + name + "=" + value, name) == Some(value)
  {
    var url := path + "?" + name + "=" + value;
    IndexOfAbsent(url, '#');
    IndexOfAt(url, '?', |path|);
    var q := name + "=" + value;
    assert url[|path| + 1..] == q;
    IndexOfAbsent(q, '&');
    IndexOfAt(q, '=', |name|);
    assert q[|name| + 1..] == value;
  }

  /** The query of a path with no `?` or `#`, then `?` and a query without `#`. */
  lemma QueryOf(path: string, q: string)
    requires forall k :: 0 <= k < |path| ==> path[k] != '?' && path[k] != '#'
    requires forall k :: 0 <= k < |q| ==> q[k] != '#'
    ensures QueryString(path + "?" + q) == Some(q)
  {
    var url := path + "?" + q;
    IndexOfAbsent(url, '#');
    IndexOfAt(url, '?', |path|);
    assert url[|path| + 1..] == q;
  }

  /** A `name=value` pair is read as that name and that value. */
  lemma FindFirstPair(pairs: seq<string>, name: string, value: string)
    requires name != [] && forall k :: 0 <= k < |name| ==> name[k] != '='
    requires pairs != [] && pairs[0] == name + "=" + value
    ensures FindParam(pairs, name) == Some(value)
  {
    var pair := pairs[0];
    IndexOfAt(pair, '=', |name|);
    assert pair[..|name|] == name;
    assert pair[|name| + 1..] == value;
  }

  /** The first piece of a split is the text before the first separator. */
  lemma SplitFirst(first: string, rest: string, c: char)
    requires forall k :: 0 <= k < |first| ==> first[k] != c
    ensures Split(first + [c] + rest, c)[0] == first
  {
    var s := first + [c] + rest;
    IndexOfAt(s, c, |first|);
    assert s[..|first|] == first;
  }

  /** The first of several parameters: a URL made of a path with no `?` or
      `#`, then `?name=`, a value with no `&` or `#`, and `&` followed by more
      parameters without a fragment, gives that value back for `name`. */
  lemma GetFirstParam(path: string, name: string, value: string, rest: string)
    requires forall k :: 0 <= k < |path| ==> path[k] != '?' && path[k] != '#'
    requires name != [] && forall k :: 0 <= k < |name| ==> name[k] != '=' && name[k] != '&' && name[k] != '#'
    requires forall k :: 0 <= k < |value| ==> value[k] != '&' && value[k] != '#'
    requires forall k :: 0 <= k < |rest| ==> rest[k] != '#'
    ensures GetParam(path + "?" + name + "=" + value + "&" + rest, name) == Some(value)
  {
    var pair := name + "=" + value;
    var q := pair + "&" + rest;
    assert forall k :: 0 <= k < |pair| ==> pair[k] != '&' && pair[k] != '#' by {
      forall k | 0 <= k < |pair| ensures pair[k] != '&' && pair[k] != '#' {
        if k < |name| {
          assert pair[k] == name[k];
        } else if k > |name| {
          assert pair[k] == value[k - |name| - 1];
        }
      }
    }
    assert forall k :: 0 <= k < |q| ==> q[k] != '#' by {
      forall k | 0 <= k < |q| ensures q[k] != '#' {
        if k < |pair| {
          assert q[k] == pair[k];
        } else if k > |pair| {
          assert q[k] == rest[k - |pair| - 1];
        }
      }
    }
    assert path + "?" + name + "=" + value + "&" + rest == path + "?" + q;
    QueryOf(path, q);
    SplitFirst(pair, rest, '&');
    FindFirstPair(Split(q, '&'), name, value);
  }
}
