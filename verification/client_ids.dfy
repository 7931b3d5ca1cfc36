/**
 * The client identifier the rate limiter buckets requests by: the first
 * comma-separated field of the `x-forwarded-for` header, else the peer
 * address, else the sentinel "unknown", with surrounding white space removed
 * by `String.prototype.trim`.
 */
module ClientIds {
  import opened Wrappers

  /** The characters `String.prototype.trim` removes: ECMAScript WhiteSpace and LineTerminator. */
  predicate IsJsSpace(c: char) {
    || c == '\t' || c == '\n' || c == '\U{B}' || c == '\U{C}' || c == '\r' || c == ' '
    || c == '\U{A0}' || c == '\U{1680}' || ('\U{2000}' <= c <= '\U{200A}')
    || c == '\U{2028}' || c == '\U{2029}' || c == '\U{202F}' || c == '\U{205F}'
    || c == '\U{3000}' || c == '\U{FEFF}'
  }

  ghost predicate AllSpaces(s: string) {
    forall i :: 0 <= i < |s| ==> IsJsSpace(s[i])
  }

  /** Neither end of `s` is white space. */
  ghost predicate Unpadded(s: string) {
    s == [] || (!IsJsSpace(s[0]) && !IsJsSpace(s[|s| - 1]))
  }

  /** The length of the white-space run that starts `s`. */
  function LeadingSpaces(s: string): (n: nat)
    ensures n <= |s| && AllSpaces(s[..n])
    ensures n < |s| ==> !IsJsSpace(s[n])
  {
    if s == [] || !IsJsSpace(s[0]) then 0 else 1 + LeadingSpaces(s[1..])
  }

  /** The length of the white-space run that ends `s`. */
  function TrailingSpaces(s: string): (n: nat)
    ensures n <= |s| && AllSpaces(s[|s| - n..])
    ensures n < |s| ==> !IsJsSpace(s[|s| - n - 1])
  {
    if s == [] || !IsJsSpace(s[|s| - 1]) then 0
    else
      var n := TrailingSpaces(s[..|s| - 1]);
      assert s[..|s| - 1][|s| - 1 - n..] + [s[|s| - 1]] == s[|s| - 1 - n..];
      1 + n
  }

  /**
   * `String.prototype.trim`: `s` is white space, then the result, then white
   * space, and the result neither starts nor ends with white space.
   */
  function Trim(s: string): (r: string)
    ensures Unpadded(r)
    ensures var i := LeadingSpaces(s);
      i + |r| <= |s| && s[i..i + |r|] == r && AllSpaces(s[..i]) && AllSpaces(s[i + |r|..])
  {
    var rest := s[LeadingSpaces(s)..];
    var r := rest[..|rest| - TrailingSpaces(rest)];
    assert r != [] ==> r[0] == rest[0];
    r
  }

  /** `s.split(',')[0]`: the longest prefix of `s` that holds no comma. */
  function FirstField(s: string): (r: string)
    ensures r <= s && ',' !in r
    ensures |r| < |s| ==> s[|r|] == ','
  {
    if s == [] || s[0] == ',' then [] else [s[0]] + FirstField(s[1..])
  }

  /**
   * The rate-limit bucket key of a request: `(xff?.split(',')[0] || ip || 'unknown').trim()`.
   * An empty first field and an empty peer address are falsy and fall through.
   */
  function ClientIdOf(forwardedFor: Option<string>, peerIp: Option<string>): (id: string)
    ensures Unpadded(id)
  {
    var first := if forwardedFor.Some? then FirstField(forwardedFor.value) else "";
    var chosen :=
      if first != "" then first
      else if peerIp.Some? && peerIp.value != "" then peerIp.value
      else "unknown";
    Trim(chosen)
  }

  /** Trim is determined by its specification: padding around an unpadded core is exactly what it strips. */
  lemma TrimStripsPadding(pre: string, core: string, post: string)
    requires AllSpaces(pre) && AllSpaces(post) && Unpadded(core)
    ensures Trim(pre + core + post) == core
  {
    if core == [] {
      TrimOfBlank(pre, post);
    } else {
      assert pre + core + post == pre + (core + post);
      LeadingSpacesOfPadded(pre, core + post);
      assert (pre + (core + post))[|pre|..] == core + post;
      TrailingSpacesOfPadded(core, post);
      assert (core + post)[..|core|] == core;
    }
  }

  lemma TrimOfBlank(pre: string, post: string)
    requires AllSpaces(pre) && AllSpaces(post)
    ensures Trim(pre + [] + post) == []
  {
    var s := pre + [] + post;
    assert AllSpaces(s) by {
      assert forall k :: 0 <= k < |pre| ==> s[k] == pre[k];
      assert forall k :: |pre| <= k < |s| ==> s[k] == post[k - |pre|];
    }
    LeadingSpacesOfPadded(s, []);
    assert s + [] == s;
  }

  lemma {:induction false} LeadingSpacesOfPadded(pre: string, rest: string)
    requires AllSpaces(pre)
    requires rest == [] || !IsJsSpace(rest[0])
    ensures LeadingSpaces(pre + rest) == |pre|
  {
    if pre == [] {
      assert pre + rest == rest;
    } else {
      assert (pre + rest)[1..] == pre[1..] + rest;
      LeadingSpacesOfPadded(pre[1..], rest);
    }
  }

  lemma {:induction false} TrailingSpacesOfPadded(rest: string, post: string)
    requires AllSpaces(post)
    requires rest == [] || !IsJsSpace(rest[|rest| - 1])
    ensures TrailingSpaces(rest + post) == |post|
  {
    if post == [] {
      assert rest + post == rest;
    } else {
      var s := rest + post;
      assert s[..|s| - 1] == rest + post[..|post| - 1];
      TrailingSpacesOfPadded(rest, post[..|post| - 1]);
    }
  }

  lemma TrimIdempotent(s: string)
    ensures Trim(Trim(s)) == Trim(s)
  {
    TrimStripsPadding([], Trim(s), []);
    assert [] + Trim(s) + [] == Trim(s);
  }

  /** The first field of a header made of a comma-free field and a comma-led remainder is that field. */
  lemma FirstFieldOf(field: string, rest: string)
    requires ',' !in field
    requires rest == [] || rest[0] == ','
    ensures FirstField(field + rest) == field
  {
    var s := field + rest;
    var r := FirstField(s);
    assert forall k :: 0 <= k < |field| ==> s[k] == field[k];
    assert rest != [] ==> s[|field|] == rest[0];
    assert forall k :: 0 <= k < |r| ==> r[k] == s[k];
    assert |r| == |field|;
  }

  /** A non-empty first forwarded-for field names the client, trimmed; the peer address is ignored. */
  lemma ClientIdFromForwardedFor(field: string, rest: string, peerIp: Option<string>)
    requires field != "" && ',' !in field
    requires rest == [] || rest[0] == ','
    ensures ClientIdOf(Some(field + rest), peerIp) == Trim(field)
    ensures ',' !in ClientIdOf(Some(field + rest), peerIp)
  {
    FirstFieldOf(field, rest);
  }

  /** Without a usable forwarded-for field, a non-empty peer address names the client, trimmed. */
  lemma ClientIdFromPeer(forwardedFor: Option<string>, ip: string)
    requires forwardedFor.None? || forwardedFor.value == "" || forwardedFor.value[0] == ','
    requires ip != ""
    ensures ClientIdOf(forwardedFor, Some(ip)) == Trim(ip)
  {
    if forwardedFor.Some? && forwardedFor.value != "" {
      FirstFieldOf([], forwardedFor.value);
    }
  }

  /** With neither a usable forwarded-for field nor a peer address, every such client shares the bucket "unknown". */
  lemma ClientIdUnknown(forwardedFor: Option<string>, peerIp: Option<string>)
    requires forwardedFor.None? || forwardedFor.value == "" || forwardedFor.value[0] == ','
    requires peerIp.None? || peerIp.value == ""
    ensures ClientIdOf(forwardedFor, peerIp) == "unknown"
  {
    if forwardedFor.Some? && forwardedFor.value != "" {
      FirstFieldOf([], forwardedFor.value);
    }
    TrimStripsPadding([], "unknown", []);
    assert [] + "unknown" + [] == "unknown";
  }

  /**
   * Trimming happens after the fallback: a first field of white space only is
   * truthy, so the peer address is not consulted and the bucket key is "".
   */
  lemma BlankFirstFieldGivesEmptyId(blank: string, rest: string, peerIp: Option<string>)
    requires blank != "" && AllSpaces(blank)
    requires rest == [] || rest[0] == ','
    ensures ClientIdOf(Some(blank + rest), peerIp) == ""
  {
    FirstFieldOf(blank, rest);
    TrimStripsPadding(blank, [], []);
    assert blank + [] + [] == blank;
  }
}
