/**
 * The two websocket routes of the course application: a document room at
 * `ws/document/<doc_id>/` and an outline room at `ws/outline/<cor_uuid>/`,
 * where the id must be written in the 8-4-4-4-12 hexadecimal text form of a
 * UUID (section 3 of RFC 4122; the version and variant digits are not
 * checked, and both letter cases are accepted).
 *
 * Django applies an endpoint pattern that ends in `$` as a full match of the
 * path it is given, so a route matches exactly the paths
 * `<prefix><id>/`.
 */
module Routing {
  import opened Wrappers

  const DocumentPrefix: string := "ws/document/"
  const OutlinePrefix: string := "ws/outline/"

  /** The positions of the four hyphens in a 36-character UUID text. */
  predicate IsHyphenPosition(i: int) {
    i == 8 || i == 13 || i == 18 || i == 23
  }

  /** The character class `[0-9a-fA-F]`. */
  predicate IsHexDigit(c: char) {
    ('0' <= c <= '9') || ('a' <= c <= 'f') || ('A' <= c <= 'F')
  }

  /** `[0-9a-fA-F]{n}` over a whole string. */
  predicate HexRun(s: string, n: nat) {
    |s| == n && forall i :: 0 <= i < |s| ==> IsHexDigit(s[i])
  }

  /**
   * The id group of both routes, read the way the regular expression is
   * written: five hexadecimal groups of 8, 4, 4, 4 and 12 digits joined by
   * hyphens.
   */
  ghost predicate UuidPattern(s: string) {
    exists g1, g2, g3, g4, g5 ::
      HexRun(g1, 8) && HexRun(g2, 4) && HexRun(g3, 4) && HexRun(g4, 4) && HexRun(g5, 12) &&
      s == g1 + "-" + g2 + "-" + g3 + "-" + g4 + "-" + g5
  }

  /** The same shape checked position by position; this is what the router runs. */
  predicate IsUuidText(s: string) {
    |s| == 36 &&
    forall i :: 0 <= i < |s| ==>
      if IsHyphenPosition(i) then s[i] == '-' else IsHexDigit(s[i])
  }

  /** The positional check accepts exactly the strings the regular expression describes. */
  lemma UuidTextIsPattern(s: string)
    ensures IsUuidText(s) <==> UuidPattern(s)
  {
    if IsUuidText(s) {
      var g1, g2, g3, g4, g5 := s[..8], s[9..13], s[14..18], s[19..23], s[24..];
      assert HexRun(g1, 8) && HexRun(g2, 4) && HexRun(g3, 4) && HexRun(g4, 4) by {
        forall i | 0 <= i < 4 ensures IsHexDigit(g2[i]) && IsHexDigit(g3[i]) && IsHexDigit(g4[i]) {
          assert g2[i] == s[9 + i] && g3[i] == s[14 + i] && g4[i] == s[19 + i];
        }
      }
      assert HexRun(g5, 12) by {
        forall i | 0 <= i < 12 ensures IsHexDigit(g5[i]) {
          assert g5[i] == s[24 + i];
        }
      }
      assert s == g1 + "-" + g2 + "-" + g3 + "-" + g4 + "-" + g5;
    }
    if UuidPattern(s) {
      var g1, g2, g3, g4, g5 :| HexRun(g1, 8) && HexRun(g2, 4) && HexRun(g3, 4) && HexRun(g4, 4) && HexRun(g5, 12) &&
        s == g1 + "-" + g2 + "-" + g3 + "-" + g4 + "-" + g5;
      forall i | 0 <= i < |s| ensures if IsHyphenPosition(i) then s[i] == '-' else IsHexDigit(s[i]) {
        if i < 8 { assert s[i] == g1[i]; }
        else if 8 < i < 13 { assert s[i] == g2[i - 9]; }
        else if 13 < i < 18 { assert s[i] == g3[i - 14]; }
        else if 18 < i < 23 { assert s[i] == g4[i - 19]; }
        else if 23 < i { assert s[i] == g5[i - 24]; }
      }
    }
  }

  /**
   * The id captured by `<prefix>(?P<id>...)/$` on a path, or None when the
   * path does not match.
   */
  function MatchRoom(prefix: string, path: string): (id: Option<string>)
    ensures id.Some? <==> exists u :: path == prefix + u + "/" && IsUuidText(u)
    ensures id.Some? ==> path == prefix + id.value + "/" && IsUuidText(id.value)
  {
    if |path| == |prefix| + 37 && path[..|prefix|] == prefix && path[|path| - 1] == '/'
       && IsUuidText(path[|prefix|..|path| - 1])
    then
      assert path == prefix + path[|prefix|..|path| - 1] + "/";
      Some(path[|prefix|..|path| - 1])
    else
      assert forall u :: path == prefix + u + "/" && IsUuidText(u) ==>
        |path| == |prefix| + 37 && path[..|prefix|] == prefix && path[|path| - 1] == '/' &&
        path[|prefix|..|path| - 1] == u;
      None
  }

  /** The consumer a route hands the connection to, with its captured keyword argument. */
  datatype Route =
    | Document(docId: string)   // DocumentConsumer, kwargs doc_id
    | Outline(corUuid: string)  // OutlineConsumer, kwargs cor_uuid

  /** `websocket_urlpatterns`: the routes are tried in order and the first match wins. */
  function Resolve(path: string): Option<Route> {
    match MatchRoom(DocumentPrefix, path)
    case Some(id) => Some(Document(id))
    case None =>
      match MatchRoom(OutlinePrefix, path)
      case Some(id) => Some(Outline(id))
      case None => None
  }

  /** A document path selects DocumentConsumer with `doc_id` the id, and nothing else does. */
  lemma ResolveDocument(path: string, id: string)
    ensures Resolve(path) == Some(Document(id)) <==> path == DocumentPrefix + id + "/" && UuidPattern(id)
  {
    UuidTextIsPattern(id);
    if path == DocumentPrefix + id + "/" && UuidPattern(id) {
      assert path[..|DocumentPrefix|] == DocumentPrefix;
      assert path[|DocumentPrefix|..|path| - 1] == id;
    }
  }

  /** An outline path selects OutlineConsumer with `cor_uuid` the id, and nothing else does. */
  lemma ResolveOutline(path: string, id: string)
    ensures Resolve(path) == Some(Outline(id)) <==> path == OutlinePrefix + id + "/" && UuidPattern(id)
  {
    UuidTextIsPattern(id);
    if path == OutlinePrefix + id + "/" && UuidPattern(id) {
      assert path[..|OutlinePrefix|] == OutlinePrefix;
      assert path[|OutlinePrefix|..|path| - 1] == id;
      NoPathMatchesBoth(path);
    }
  }

  /** The prefixes differ at their fourth character, so no path matches both routes. */
  lemma NoPathMatchesBoth(path: string)
    ensures !(MatchRoom(DocumentPrefix, path).Some? && MatchRoom(OutlinePrefix, path).Some?)
  {
    if MatchRoom(DocumentPrefix, path).Some? {
      assert path[3] == path[..|DocumentPrefix|][3] == 'd';
      assert path[..|OutlinePrefix|][3] != OutlinePrefix[3];
    }
  }

  /** An accepted id is 36 characters long with hyphens at 8, 13, 18 and 23 and hex digits elsewhere. */
  lemma AcceptedIdShape(path: string)
    requires Resolve(path).Some?
    ensures var id := if Resolve(path).value.Document? then Resolve(path).value.docId else Resolve(path).value.corUuid;
      |id| == 36 && id[8] == id[13] == id[18] == id[23] == '-' &&
      forall i :: 0 <= i < 36 && !IsHyphenPosition(i) ==> IsHexDigit(id[i])
  {
  }

  /** A path whose fourth character is not a route prefix's fourth character matches no route under that prefix. */
  lemma OtherPrefixRejects(prefix: string, q: string, p: string)
    requires prefix == DocumentPrefix || prefix == OutlinePrefix
    requires q == DocumentPrefix || q == OutlinePrefix
    requires q != prefix && |p| > |prefix| && p[..|prefix|] == prefix
    ensures MatchRoom(q, p).None?
  {
    assert p[3] == p[..|prefix|][3] == prefix[3];
    if |p| >= |q| {
      assert p[..|q|][3] == p[3] != q[3];
    }
  }

  /** A path that does not end in `/`, or has anything after the id's `/`, matches no route. */
  lemma TrailingSlashRequired(prefix: string, id: string, rest: string)
    requires prefix == DocumentPrefix || prefix == OutlinePrefix
    requires IsUuidText(id)
    ensures Resolve(prefix + id) == None
    ensures rest != [] ==> Resolve(prefix + id + "/" + rest) == None
  {
    var p1 := prefix + id;
    assert p1[..|prefix|] == prefix;
    assert |p1| == |prefix| + 36;
    assert p1[|p1| - 1] == id[35] != '/';
    var other := if prefix == DocumentPrefix then OutlinePrefix else DocumentPrefix;
    OtherPrefixRejects(prefix, other, p1);
    if rest != [] {
      var p2 := prefix + id + "/" + rest;
      assert p2[..|prefix|] == prefix;
      assert |p2| == |prefix| + 37 + |rest|;
      OtherPrefixRejects(prefix, other, p2);
    }
  }

  /**
   * An id with a group of the wrong length, a non-hex character where a
   * digit belongs, or a missing hyphen matches neither route.
   */
  lemma MalformedIdRejected(prefix: string, id: string)
    requires prefix == DocumentPrefix || prefix == OutlinePrefix
    requires !UuidPattern(id)
    ensures Resolve(prefix + id + "/") == None
  {
    UuidTextIsPattern(id);
    var p := prefix + id + "/";
    assert p[..|prefix|] == prefix;
    if |p| == |prefix| + 37 {
      assert p[|prefix|..|p| - 1] == id;
    }
    var other := if prefix == DocumentPrefix then OutlinePrefix else DocumentPrefix;
    OtherPrefixRejects(prefix, other, p);
  }
}
