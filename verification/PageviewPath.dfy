/** Reducing a raw path to the section it belongs to, for pageview reporting. */
module PageviewPath {
  import opened Common

  // ---------------------------------------------------------------------------
  // Strings as lists of segments
  // ---------------------------------------------------------------------------

  /** The path without its query and fragment. */
  function Clean(path: string): (r: string)
    ensures '?' !in r && '#' !in r
  {
    if path == "" || path[0] == '?' || path[0] == '#' then "" else [path[0]] + Clean(path[1..])
  }

  /** The pieces between the slashes, empty ones included. */
  function Split(s: string): (parts: seq<string>)
    ensures parts != []
    ensures forall p :: p in parts ==> '/' !in p && forall c :: c in p ==> c in s
  {
    if s == "" then [""]
    else
      var rest := Split(s[1..]);
      if s[0] == '/' then [""] + rest
      else
        var head := [s[0]] + rest[0];
        assert rest[0] in rest && forall p :: p in rest[1..] ==> p in rest;
        assert forall c :: c in head ==> c == s[0] || c in rest[0];
        [head] + rest[1..]
  }

  function NonEmpty(parts: seq<string>): (r: seq<string>)
    ensures forall p :: p in r <==> p in parts && p != ""
  {
    Filter((p: string) => p != "", parts)
  }

  function Segments(s: string): seq<string> {
    NonEmpty(Split(s))
  }

  /** The pieces with a slash between any two. */
  function Join(parts: seq<string>): string {
    if parts == [] then ""
    else if |parts| == 1 then parts[0]
    else parts[0] + "/" + Join(parts[1..])
  }

  lemma {:induction false} SplitAtSlash(w: string, t: string)
    requires '/' !in w
    ensures Split(w + "/" + t) == [w] + Split(t)
  {
    if w == "" {
      assert w + "/" + t == "/" + t;
      assert ("/" + t)[1..] == t;
    } else {
      var s := w + "/" + t;
      assert s[1..] == w[1..] + "/" + t;
      SplitAtSlash(w[1..], t);
      assert [w[0]] + w[1..] == w;
    }
  }

  lemma {:induction false} SplitSingle(w: string)
    requires '/' !in w
    ensures Split(w) == [w]
  {
    if w != "" {
      SplitSingle(w[1..]);
      assert [w[0]] + w[1..] == w;
    }
  }

  /** Splitting undoes joining. */
  lemma {:induction false} SplitJoin(parts: seq<string>)
    requires parts != [] && forall p :: p in parts ==> '/' !in p
    ensures Split(Join(parts)) == parts
  {
    assert parts[0] in parts;
    if |parts| == 1 {
      SplitSingle(parts[0]);
    } else {
      SplitJoin(parts[1..]);
      SplitAtSlash(parts[0], Join(parts[1..]));
    }
  }

  // ---------------------------------------------------------------------------
  // Resource ids
  // ---------------------------------------------------------------------------

  predicate IsHex(c: char) {
    '0' <= c <= '9' || 'a' <= c <= 'f' || 'A' <= c <= 'F'
  }

  predicate IsUuid(s: string) {
    && |s| == 36
    && forall i :: 0 <= i < 36 ==> if i in {8, 13, 18, 23} then s[i] == '-' else IsHex(s[i])
  }

  predicate IsUpper(c: char) {
    'A' <= c <= 'Z'
  }

  predicate IsDigit(c: char) {
    '0' <= c <= '9'
  }

  /** Capital letters and digits, starting with a letter; a dash; digits. */
  predicate IsIssueKey(s: string) {
    exists dash :: 0 < dash < |s| - 1 && s[dash] == '-' && IsUpper(s[0]) &&
      (forall i :: 0 < i < dash ==> IsUpper(s[i]) || IsDigit(s[i])) &&
      (forall i :: dash < i < |s| ==> IsDigit(s[i]))
  }

  predicate IsResource(segment: string) {
    IsUuid(segment) || IsIssueKey(segment)
  }

  /** The first segment always stays; later ones stay unless they name one resource. */
  function Kept(segments: seq<string>): (r: seq<string>)
    ensures forall p :: p in r ==> p in segments
  {
    if segments == [] then [] else [segments[0]] + Filter(s => !IsResource(s), segments[1..])
  }

  /** Cleaning keeps everything up to the first query or fragment mark. */
  lemma {:induction false} CleanIsPrefix(path: string)
    ensures Clean(path) <= path
    ensures |Clean(path)| < |path| ==> path[|Clean(path)|] in {'?', '#'}
  {
    if path != "" && path[0] != '?' && path[0] != '#' {
      CleanIsPrefix(path[1..]);
    }
  }

  ghost predicate HexDigits(s: string, n: nat) {
    |s| == n && forall c :: c in s ==> IsHex(c)
  }

  ghost predicate KeyPrefix(s: string) {
    s != "" && IsUpper(s[0]) && forall c :: c in s ==> IsUpper(c) || IsDigit(c)
  }

  ghost predicate Digits(s: string) {
    s != "" && forall c :: c in s ==> IsDigit(c)
  }

  ghost predicate DashedHex(s: string) {
    exists a, b, c, d, e ::
      && HexDigits(a, 8) && HexDigits(b, 4) && HexDigits(c, 4) && HexDigits(d, 4) && HexDigits(e, 12)
      && s == a + "-" + b + "-" + c + "-" + d + "-" + e
  }

  ghost predicate DashedKey(s: string) {
    exists p, n :: KeyPrefix(p) && Digits(n) && s == p + "-" + n
  }

  lemma UuidIsDashedHex(s: string)
    ensures IsUuid(s) <==> DashedHex(s)
  {
    hide IsUuid, HexDigits;
    if IsUuid(s) {
      UuidParts(s);
    }
    if DashedHex(s) {
      var a, b, c, d, e :|
        && HexDigits(a, 8) && HexDigits(b, 4) && HexDigits(c, 4) && HexDigits(d, 4) && HexDigits(e, 12)
        && s == a + "-" + b + "-" + c + "-" + d + "-" + e;
      PartsAreUuid(a, b, c, d, e);
    }
  }

  lemma UuidParts(s: string)
    requires IsUuid(s)
    ensures DashedHex(s)
  {
    hide IsHex;
    var a, b, c, d, e := s[..8], s[9..13], s[14..18], s[19..23], s[24..];
    assert forall i :: 0 <= i < 8 ==> a[i] == s[i];
    assert forall i :: 0 <= i < 4 ==> b[i] == s[9 + i];
    assert forall i :: 0 <= i < 4 ==> c[i] == s[14 + i];
    assert forall i :: 0 <= i < 4 ==> d[i] == s[19 + i];
    assert forall i :: 0 <= i < 12 ==> e[i] == s[24 + i];
    assert HexDigits(a, 8) && HexDigits(b, 4) && HexDigits(c, 4) && HexDigits(d, 4) && HexDigits(e, 12);
    assert s == a + "-" + b + "-" + c + "-" + d + "-" + e;
  }

  lemma PartsAreUuid(a: string, b: string, c: string, d: string, e: string)
    requires HexDigits(a, 8) && HexDigits(b, 4) && HexDigits(c, 4) && HexDigits(d, 4) && HexDigits(e, 12)
    ensures IsUuid(a + "-" + b + "-" + c + "-" + d + "-" + e)
  {
    hide IsHex;
    var s := a + "-" + b + "-" + c + "-" + d + "-" + e;
    forall i | 0 <= i < 36 ensures if i in {8, 13, 18, 23} then s[i] == '-' else IsHex(s[i]) {
      if i < 8 {
        assert s[i] == a[i];
      } else if 8 < i < 13 {
        assert s[i] == b[i - 9];
      } else if 13 < i < 18 {
        assert s[i] == c[i - 14];
      } else if 18 < i < 23 {
        assert s[i] == d[i - 19];
      } else if 23 < i {
        assert s[i] == e[i - 24];
      }
    }
  }

  lemma IssueKeyParts(s: string, dash: nat)
    requires 0 < dash < |s| - 1 && s[dash] == '-' && IsUpper(s[0])
    requires forall i :: 0 < i < dash ==> IsUpper(s[i]) || IsDigit(s[i])
    requires forall i :: dash < i < |s| ==> IsDigit(s[i])
    ensures DashedKey(s)
  {
    var p, n := s[..dash], s[dash + 1..];
    assert KeyPrefix(p) by {
      assert forall i :: 0 <= i < |p| ==> p[i] == s[i];
    }
    assert Digits(n) by {
      assert forall i :: 0 <= i < |n| ==> n[i] == s[dash + 1 + i];
    }
    assert s == p + "-" + n;
  }

  lemma DashedKeyIsIssueKey(p: string, n: string)
    requires KeyPrefix(p) && Digits(n)
    ensures IsIssueKey(p + "-" + n)
  {
    var s, dash := p + "-" + n, |p|;
    assert s[0] == p[0] && s[dash] == '-';
    forall i | 0 < i < dash ensures IsUpper(s[i]) || IsDigit(s[i]) {
      assert s[i] == p[i] && p[i] in p;
    }
    forall i | dash < i < |s| ensures IsDigit(s[i]) {
      assert s[i] == n[i - dash - 1] && n[i - dash - 1] in n;
    }
  }

  lemma IssueKeyIsDashedKey(s: string)
    ensures IsIssueKey(s) <==> DashedKey(s)
  {
    if IsIssueKey(s) {
      var dash: nat :| 0 < dash < |s| - 1 && s[dash] == '-' && IsUpper(s[0]) &&
        (forall i :: 0 < i < dash ==> IsUpper(s[i]) || IsDigit(s[i])) && (forall i :: dash < i < |s| ==> IsDigit(s[i]));
      hide IsIssueKey, DashedKey;
      IssueKeyParts(s, dash);
    } else if DashedKey(s) {
      var p, n :| KeyPrefix(p) && Digits(n) && s == p + "-" + n;
      hide IsIssueKey, DashedKey;
      DashedKeyIsIssueKey(p, n);
    }
  }

  /** What names one resource: five dashed groups of hex digits, or an upper-case key, a dash and a number. */
  lemma ResourceExactly(segment: string)
    ensures IsResource(segment) <==> DashedHex(segment) || DashedKey(segment)
  {
    UuidIsDashedHex(segment);
    IssueKeyIsDashedKey(segment);
  }

  /** The first segment is kept whatever it looks like; each later one unless it names a resource. */
  lemma KeptGrows(segments: seq<string>, next: string)
    ensures Kept([next]) == [next]
    ensures segments != [] ==> Kept(segments + [next]) == Kept(segments) + (if IsResource(next) then [] else [next])
  {
    hide IsResource;
    if segments != [] {
      assert (segments + [next])[1..] == segments[1..] + [next];
      FilterConcat(s => !IsResource(s), segments[1..], [next]);
    }
  }

  // ---------------------------------------------------------------------------
  // The section of a path
  // ---------------------------------------------------------------------------

  function NormalizePageviewPath(path: Option<string>): Option<string> {
    if path.None? || path.value == "" then path
    else Some("/" + Join(Kept(Segments(Clean(path.value)))))
  }

  lemma {:induction false} CleanPlain(s: string)
    requires '?' !in s && '#' !in s
    ensures Clean(s) == s
  {
    if s != "" {
      CleanPlain(s[1..]);
    }
  }

  lemma {:induction false} JoinChars(parts: seq<string>, c: char)
    requires c != '/' && forall p :: p in parts ==> c !in p
    ensures c !in Join(parts)
  {
    if |parts| > 1 {
      assert parts[0] in parts;
      JoinChars(parts[1..], c);
    } else if |parts| == 1 {
      assert parts[0] in parts;
    }
  }

  /** The segments of a printed path are the segments it was printed from. */
  lemma SegmentsOfPrinted(parts: seq<string>)
    requires forall p :: p in parts ==> p != "" && '/' !in p
    ensures Segments("/" + Join(parts)) == parts
  {
    hide Split, Join;
    var t := Join(parts);
    assert "" + "/" + t == "/" + t;
    SplitAtSlash("", t);
    if parts == [] {
      EmptyJoin();
      SplitSingle("");
      FilterNone((p: string) => p != "", ["", ""]);
    } else {
      SplitJoin(parts);
      FilterAll((p: string) => p != "", parts);
      FilterConcat((p: string) => p != "", [""], parts);
      FilterNone((p: string) => p != "", [""]);
    }
  }

  lemma EmptyJoin()
    ensures Join([]) == ""
  {
  }

  lemma KeptTwice(segments: seq<string>)
    ensures Kept(Kept(segments)) == Kept(segments)
  {
    if segments != [] {
      var tail := Filter(s => !IsResource(s), segments[1..]);
      FilterAll(s => !IsResource(s), tail);
      assert Kept(segments)[1..] == tail;
    }
  }

  /** A normalized path is made of the kept segments and carries no query or fragment. */
  lemma NormalizedSegments(path: string)
    requires path != ""
    ensures var r := NormalizePageviewPath(Some(path)).value;
            Clean(r) == r && Segments(r) == Kept(Segments(Clean(path)))
  {
    hide Split, Clean, Kept, Join, Segments;
    var kept := Kept(Segments(Clean(path)));
    KeptParts(path);
    SegmentsOfPrinted(kept);
    JoinChars(kept, '?');
    JoinChars(kept, '#');
    CleanPlain("/" + Join(kept));
  }

  lemma KeptParts(path: string)
    ensures forall p :: p in Kept(Segments(Clean(path))) ==> p != "" && '/' !in p && '?' !in p && '#' !in p
  {
    hide Split, Clean, Kept;
  }

  /** Normalizing a normalized path changes nothing. */
  lemma NormalizationIsIdempotent(path: Option<string>)
    ensures NormalizePageviewPath(NormalizePageviewPath(path)) == NormalizePageviewPath(path)
  {
    hide Clean, Kept, Join, Segments;
    if path.Some? && path.value != "" {
      NormalizedSegments(path.value);
      KeptTwice(Segments(Clean(path.value)));
    }
  }

  /** Two paths with one section are reported as one: ids, queries and fragments do not matter. */
  lemma SameSection(a: string, b: string)
    requires a != "" && b != ""
    ensures NormalizePageviewPath(Some(a)) == NormalizePageviewPath(Some(b)) <==>
            Kept(Segments(Clean(a))) == Kept(Segments(Clean(b)))
  {
    NormalizedSegments(a);
    NormalizedSegments(b);
  }
}
