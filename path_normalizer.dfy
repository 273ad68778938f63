/**
 * The request-path normaliser `parseRequest`: it drops the query string,
 * splits the path on '/', masks every segment that is an opaque 22-character
 * token or a canonical UUID, and joins the segments again.  The regular
 * expressions of the source become character-class predicates; `strings.SplitN`,
 * `strings.Split` and `strings.Join` become the functions BeforeQuery, Split
 * and Join.
 */
module PathNormalizer {

  /** Placeholder for a 22-character token (15 X's). */
  const TokenMask: string := "XXXXXXXXXXXXXXX"

  /** Placeholder for a UUID, dashes kept in place. */
  const UuidMask: string := "XXXXXXXX-XXXX-XXXX-XXXX-XXXXXXXXXXXX"

  /** The character class `[A-Za-z0-9_-]`. */
  predicate IsTokenChar(c: char) {
    ('A' <= c <= 'Z') || ('a' <= c <= 'z') || ('0' <= c <= '9') || c == '_' || c == '-'
  }

  /** The character class `[0-9a-fA-F]`. */
  predicate IsHexDigit(c: char) {
    ('0' <= c <= '9') || ('a' <= c <= 'f') || ('A' <= c <= 'F')
  }

  /** The anchored expression `^[A-Za-z0-9_-]{22}$`. */
  predicate IsToken22(s: string) {
    |s| == 22 && forall i :: 0 <= i < |s| ==> IsTokenChar(s[i])
  }

  /** The positions of the four dashes in the 8-4-4-4-12 layout. */
  predicate IsDashPosition(i: int) {
    i == 8 || i == 13 || i == 18 || i == 23
  }

  /** The anchored 8-4-4-4-12 hexadecimal UUID expression. */
  predicate IsUuid(s: string) {
    |s| == 36 && forall i :: 0 <= i < |s| ==> if IsDashPosition(i) then s[i] == '-' else IsHexDigit(s[i])
  }

  /**
   * `strings.SplitN(s, "?", 2)[0]`: the longest prefix of `s` that holds no '?'.
   * The three ensures determine the result (see BeforeQueryUnique).
   */
  function BeforeQuery(s: string): (r: string)
    ensures r <= s
    ensures '?' !in r
    ensures r == s || s[|r|] == '?'
  {
    if |s| == 0 || s[0] == '?' then "" else [s[0]] + BeforeQuery(s[1..])
  }

  /** Number of '/' characters in `s`. */
  function SlashCount(s: string): nat {
    if |s| == 0 then 0 else (if s[0] == '/' then 1 else 0) + SlashCount(s[1..])
  }

  /**
   * `strings.Split(s, "/")`: the pieces between the separators. There is
   * always one piece more than there are separators, and no piece holds one.
   */
  function Split(s: string): (parts: seq<string>)
    ensures |parts| == SlashCount(s) + 1
    ensures forall i :: 0 <= i < |parts| ==> '/' !in parts[i]
  {
    if |s| == 0 then [""]
    else
      var rest := Split(s[1..]);
      if s[0] == '/' then [""] + rest else [[s[0]] + rest[0]] + rest[1..]
  }

  /** `strings.Join(parts, "/")`. */
  function Join(parts: seq<string>): string {
    if |parts| == 0 then ""
    else if |parts| == 1 then parts[0]
    else parts[0] + "/" + Join(parts[1..])
  }

  /** The masking rule that the loop body of the source applies to one segment. */
  function MaskSegment(segment: string): (r: string)
    ensures r == segment <==> !IsToken22(segment) && !IsUuid(segment)
    ensures IsToken22(segment) ==> r == TokenMask
    ensures IsUuid(segment) ==> r == UuidMask
  {
    assert UuidMask[0] == 'X' && !IsHexDigit(UuidMask[0]);
    if IsUuid(segment) then UuidMask
    else if IsToken22(segment) then TokenMask
    else segment
  }

  /** Every segment masked, positions kept. */
  function MaskAll(parts: seq<string>): (masked: seq<string>)
    ensures |masked| == |parts|
  {
    seq(|parts|, i requires 0 <= i < |parts| => MaskSegment(parts[i]))
  }

  /** The normalised form of a request target: what `parseRequest` returns. */
  function Normalize(request: string): string {
    Join(MaskAll(Split(BeforeQuery(request))))
  }

  /** A path that normalisation leaves alone; every grouping key is one. */
  predicate IsNormalized(path: string) {
    Normalize(path) == path
  }

  // ---------------------------------------------------------------------
  // The normaliser as the source writes it: overwrite parts[i] in a loop.
  // ---------------------------------------------------------------------

  /**
   * parseRequest. The result has exactly the segments of the query-free
   * prefix, each one masked on an exact full match and otherwise unchanged.
   */
  method ParseRequest(request: string) returns (r: string)
    ensures r == Normalize(request)
    ensures '?' !in r
    ensures |Split(r)| == |Split(BeforeQuery(request))|
    ensures forall i :: 0 <= i < |Split(r)| ==>
              Split(r)[i] == MaskSegment(Split(BeforeQuery(request))[i])
  {
    var result := BeforeQuery(request);
    var parts := Split(result);
    ghost var original := parts;
    var i := 0;
    while i < |parts|
      invariant 0 <= i <= |parts| == |original|
      invariant forall k :: 0 <= k < i ==> parts[k] == MaskSegment(original[k])
      invariant forall k :: i <= k < |parts| ==> parts[k] == original[k]
    {
      var part := parts[i];
      if IsToken22(part) {
        parts := parts[i := TokenMask];
      }
      if IsUuid(part) {
        parts := parts[i := UuidMask];
      }
      i := i + 1;
    }
    assert parts == MaskAll(original);
    r := Join(parts);
    NormalizeShape(request);
  }

  // ---------------------------------------------------------------------
  // Lemmas
  // ---------------------------------------------------------------------

  /** BeforeQuery is the unique prefix its contract describes. */
  lemma {:induction false} BeforeQueryUnique(s: string, p: string)
    requires p <= s && '?' !in p && (p == s || s[|p|] == '?')
    ensures BeforeQuery(s) == p
  {
    if |p| > 0 {
      assert s[0] == p[0];
      BeforeQueryUnique(s[1..], p[1..]);
    }
  }

  /** Joining is the inverse of splitting. */
  lemma {:induction false} JoinSplit(s: string)
    ensures Join(Split(s)) == s
  {
    if |s| > 0 {
      var rest := Split(s[1..]);
      JoinSplit(s[1..]);
      if s[0] == '/' {
        assert Split(s) == [""] + rest;
        assert ([""] + rest)[1..] == rest;
      } else {
        JoinCons(s[0], rest);
      }
    }
  }

  /** Putting a character in front of the first piece puts it in front of the join. */
  lemma {:induction false} JoinCons(c: char, parts: seq<string>)
    requires |parts| >= 1
    ensures Join([[c] + parts[0]] + parts[1..]) == [c] + Join(parts)
  {
    var ps := [[c] + parts[0]] + parts[1..];
    if |parts| > 1 {
      assert ps[1..] == parts[1..];
      assert Join(ps) == ([c] + parts[0]) + "/" + Join(parts[1..]);
      assert ([c] + parts[0]) + "/" + Join(parts[1..]) == [c] + (parts[0] + "/" + Join(parts[1..]));
    }
  }

  /** A piece without '/' splits to itself. */
  lemma {:induction false} SplitNoSlash(a: string)
    requires '/' !in a
    ensures Split(a) == [a]
  {
    if |a| > 0 {
      SplitNoSlash(a[1..]);
      assert [a[0]] + a[1..] == a;
    }
  }

  /** Splitting `a + "/" + t` with a slash-free `a` yields `a` and then the pieces of `t`. */
  lemma {:induction false} SplitAppend(a: string, t: string)
    requires '/' !in a
    ensures Split(a + "/" + t) == [a] + Split(t)
  {
    var s := a + "/" + t;
    if |a| == 0 {
      assert s[1..] == t;
    } else {
      assert s[1..] == a[1..] + "/" + t;
      SplitAppend(a[1..], t);
      assert [a[0]] + a[1..] == a;
    }
  }

  /** Splitting is the inverse of joining pieces that hold no separator. */
  lemma {:induction false} SplitJoin(parts: seq<string>)
    requires |parts| >= 1
    requires forall i :: 0 <= i < |parts| ==> '/' !in parts[i]
    ensures Split(Join(parts)) == parts
  {
    if |parts| == 1 {
      SplitNoSlash(parts[0]);
    } else {
      SplitJoin(parts[1..]);
      SplitAppend(parts[0], Join(parts[1..]));
      assert [parts[0]] + parts[1..] == parts;
    }
  }

  /** No piece of a split holds a character the input lacks. */
  lemma {:induction false} SplitChars(s: string, c: char)
    requires c !in s
    ensures forall i :: 0 <= i < |Split(s)| ==> c !in Split(s)[i]
  {
    if |s| > 0 {
      SplitChars(s[1..], c);
    }
  }

  /** Joining pieces that lack a character other than '/' gives a string that lacks it. */
  lemma {:induction false} JoinChars(parts: seq<string>, c: char)
    requires c != '/'
    requires forall i :: 0 <= i < |parts| ==> c !in parts[i]
    ensures c !in Join(parts)
  {
    if |parts| > 1 {
      JoinChars(parts[1..], c);
    }
  }

  /** The masks contain neither separator nor '?'. */
  lemma MasksArePlain()
    ensures '/' !in TokenMask && '?' !in TokenMask
    ensures '/' !in UuidMask && '?' !in UuidMask
  {
  }

  /** Masking keeps a segment free of '/' and of '?' when it was. */
  lemma MaskSegmentPlain(segment: string, c: char)
    requires c == '/' || c == '?'
    requires c !in segment
    ensures c !in MaskSegment(segment)
  {
    MasksArePlain();
  }

  /** A mask is a fixed point of masking: neither matches either pattern. */
  lemma MaskSegmentIdempotent(segment: string)
    ensures MaskSegment(MaskSegment(segment)) == MaskSegment(segment)
  {
    assert !IsUuid(TokenMask) && !IsToken22(TokenMask);
    assert UuidMask[0] == 'X' && !IsHexDigit(UuidMask[0]);
    assert !IsUuid(UuidMask) && !IsToken22(UuidMask);
  }

  /**
   * Normaliser shape: the result holds no '?', has exactly as many segments
   * as the query-free prefix, and each segment is that prefix's segment
   * masked (and so unchanged unless it matched a pattern).
   */
  lemma NormalizeShape(request: string)
    ensures '?' !in Normalize(request)
    ensures |Split(Normalize(request))| == |Split(BeforeQuery(request))|
    ensures forall i :: 0 <= i < |Split(Normalize(request))| ==>
              Split(Normalize(request))[i] == MaskSegment(Split(BeforeQuery(request))[i])
  {
    var parts := Split(BeforeQuery(request));
    var masked := MaskAll(parts);
    forall i | 0 <= i < |masked| ensures '/' !in masked[i] {
      MaskSegmentPlain(parts[i], '/');
    }
    SplitJoin(masked);
    SplitChars(BeforeQuery(request), '?');
    forall i | 0 <= i < |masked| ensures '?' !in masked[i] {
      MaskSegmentPlain(parts[i], '?');
    }
    JoinChars(masked, '?');
  }

  /** Normalising twice is normalising once: every result is a normalised path. */
  lemma NormalizeIdempotent(request: string)
    ensures IsNormalized(Normalize(request))
  {
    var n := Normalize(request);
    NormalizeShape(request);
    BeforeQueryUnique(n, n);
    var parts := Split(BeforeQuery(request));
    var masked := MaskAll(parts);
    forall i | 0 <= i < |masked| ensures '/' !in masked[i] {
      MaskSegmentPlain(parts[i], '/');
    }
    SplitJoin(masked);
    forall i | 0 <= i < |masked| ensures MaskAll(masked)[i] == masked[i] {
      MaskSegmentIdempotent(parts[i]);
    }
    assert MaskAll(masked) == masked;
  }

  /** A segment that matches neither anchored pattern is never masked. */
  lemma UnmatchedSegmentKept(segment: string)
    requires !IsToken22(segment) && !IsUuid(segment)
    ensures MaskSegment(segment) == segment
  {
  }

  /** Normalising a path built from plain segments and a query string masks the segments. */
  lemma NormalizeOfSegments(parts: seq<string>, query: string, request: string)
    requires |parts| >= 1
    requires forall i :: 0 <= i < |parts| ==> '/' !in parts[i] && '?' !in parts[i]
    requires request == Join(parts) + "?" + query
    ensures Normalize(request) == Join(MaskAll(parts))
  {
    var p := Join(parts);
    JoinChars(parts, '?');
    BeforeQueryUnique(p + "?" + query, p);
    SplitJoin(parts);
  }

  /** Normalising a query-free path built from plain segments masks the segments. */
  lemma NormalizeOfPlainSegments(parts: seq<string>, request: string)
    requires |parts| >= 1
    requires forall i :: 0 <= i < |parts| ==> '/' !in parts[i] && '?' !in parts[i]
    requires request == Join(parts)
    ensures Normalize(request) == Join(MaskAll(parts))
  {
    var p := request;
    JoinChars(parts, '?');
    BeforeQueryUnique(p, p);
    SplitJoin(parts);
  }

  /** Joining three segments. */
  lemma JoinThree(a: string, b: string, c: string)
    ensures Join([a, b, c]) == a + "/" + b + "/" + c
  {
    assert [a, b, c][1..] == [b, c];
    assert [b, c][1..] == [c];
    assert Join([b, c]) == b + "/" + c;
    assert a + "/" + (b + "/" + c) == a + "/" + b + "/" + c;
  }

  /** Joining four segments. */
  lemma JoinFour(a: string, b: string, c: string, d: string)
    ensures Join([a, b, c, d]) == a + "/" + b + "/" + c + "/" + d
  {
    assert [a, b, c, d][1..] == [b, c, d];
    JoinThree(b, c, d);
    assert a + "/" + (b + "/" + c + "/" + d) == a + "/" + b + "/" + c + "/" + d;
  }

  /** Any UUID segment is replaced by the dashed mask, the other segments are kept. */
  lemma NormalizeUuidSegment(id: string, request: string)
    requires IsUuid(id)
    requires request == "/users/" + id
    ensures Normalize(request) == "/users/" + UuidMask
  {
    var parts := ["", "users", id];
    assert request == Join(parts) by {
      JoinThree("", "users", id);
    }
    UuidIsPlain(id);
    NormalizeOfPlainSegments(parts, request);
    assert MaskAll(parts) == ["", "users", UuidMask] by {
      assert MaskSegment(id) == UuidMask;
      assert MaskSegment("") == "" && MaskSegment("users") == "users";
    }
    JoinThree("", "users", UuidMask);
  }

  /** A UUID holds neither separator nor '?'. */
  lemma UuidIsPlain(id: string)
    requires IsUuid(id)
    ensures '/' !in id && '?' !in id
  {
    assert forall i :: 0 <= i < |id| ==> id[i] != '/' && id[i] != '?';
  }

  /** Only a full-segment match is masked: a segment of 23 token characters is kept as it is. */
  lemma NormalizePartialMatchKept(segment: string, request: string)
    requires |segment| == 23 && forall i :: 0 <= i < |segment| ==> IsTokenChar(segment[i])
    requires request == "/a/" + segment
    ensures Normalize(request) == request
  {
    var parts := ["", "a", segment];
    assert request == Join(parts) by {
      JoinThree("", "a", segment);
    }
    assert '/' !in segment && '?' !in segment by {
      assert forall i :: 0 <= i < |segment| ==> segment[i] != '/' && segment[i] != '?';
    }
    NormalizeOfPlainSegments(parts, request);
    assert MaskAll(parts) == parts;
  }

  /**
   * The worked example, for every 22-character token: the token is masked
   * and the query string dropped.
   */
  lemma NormalizeTokenSegment(token: string, request: string)
    requires IsToken22(token)
    requires request == "/v1/" + token + "/resource?x=1"
    ensures Normalize(request) == "/v1/" + TokenMask + "/resource"
  {
    var parts := ["", "v1", token, "resource"];
    assert request == Join(parts) + "?" + "x=1" by {
      JoinFour("", "v1", token, "resource");
    }
    assert '/' !in token && '?' !in token by {
      assert forall i :: 0 <= i < |token| ==> token[i] != '/' && token[i] != '?';
    }
    NormalizeOfSegments(parts, "x=1", request);
    assert MaskAll(parts) == ["", "v1", TokenMask, "resource"] by {
      assert MaskSegment(token) == TokenMask;
      assert MaskSegment("") == "" && MaskSegment("v1") == "v1" && MaskSegment("resource") == "resource";
    }
    JoinFour("", "v1", TokenMask, "resource");
  }

  /** The token of the worked example `/v1/AbCdEfGhIjKlMnOpQrStUv/resource?x=1` qualifies. */
  lemma ExampleTokenMatches()
    ensures IsToken22("AbCdEfGhIjKlMnOpQrStUv")
  {
  }

  /** A canonical UUID qualifies for the dashed mask. */
  lemma ExampleUuidMatches()
    ensures IsUuid("123e4567-e89b-12d3-a456-426614174000")
  {
  }
}
