/**
 Printing a comment draft: every sentinel-marked `@name` run is paired, in order, with a marker and
 becomes a markdown link; any mismatch falls back to the plain text without sentinels.

 A draft is a sequence of `char`, one per position the original indexes.
 */
module MentionSerialize {
  import opened Common

  /** U+2063 INVISIBLE SEPARATOR, put before every `@` that came from the suggestion bar. */
  const SENTINEL: char := '\U{2063}'

  /** The characters matched by `\s`. */
  predicate IsSpace(c: char) {
    || c in {'\t', '\n', '\U{000B}', '\U{000C}', '\r', ' ', '\U{00A0}', '\U{1680}'}
    || '\U{2000}' <= c <= '\U{200A}'
    || c in {'\U{2028}', '\U{2029}', '\U{202F}', '\U{205F}', '\U{3000}', '\U{FEFF}'}
  }

  predicate SpaceFree(s: string) {
    forall i :: 0 <= i < |s| ==> !IsSpace(s[i])
  }

  predicate SentinelFree(s: string) {
    SENTINEL !in s
  }

  datatype MentionType = Member | Agent | Squad | All | Issue

  datatype Marker = Marker(kind: MentionType, id: string, name: string)

  function TypeName(kind: MentionType): string {
    match kind
    case Member => "member"
    case Agent => "agent"
    case Squad => "squad"
    case All => "all"
    case Issue => "issue"
  }

  /** The markdown link for a marker; issues drop the `@` in the label. */
  function Link(m: Marker): string {
    var caption := if m.kind == Issue then m.name else "@" + m.name;
    "[" + caption + "](mention://" + TypeName(m.kind) + "/" + m.id + ")"
  }

  function Names(markers: seq<Marker>): seq<string> {
    Map((m: Marker) => m.name, markers)
  }

  // ---------------------------------------------------------------------------
  // What a draft means
  // ---------------------------------------------------------------------------

  /** The longest prefix without white space. */
  function Word(text: string): (w: string)
    ensures w <= text && SpaceFree(w)
    ensures |w| < |text| ==> IsSpace(text[|w|])
  {
    if text == [] || IsSpace(text[0]) then []
    else [text[0]] + Word(text[1..])
  }

  predicate StartsToken(text: string) {
    |text| >= 2 && text[0] == SENTINEL && text[1] == '@'
  }

  /** The words of the sentinel-marked `@word` runs, left to right. */
  function Tokens(text: string): seq<string>
    decreases |text|
  {
    if text == [] then []
    else if StartsToken(text) then
      var w := Word(text[2..]);
      [w] + Tokens(text[2 + |w|..])
    else Tokens(text[1..])
  }

  /** The draft as the user sees it. */
  function Erase(text: string): string {
    Filter(c => c != SENTINEL, text)
  }

  /** A printed draft is made of literal characters and of links. */
  datatype Piece = Plain(c: char) | Mention(marker: Marker)

  /** The printed text. */
  function Render(pieces: seq<Piece>): string {
    if pieces == [] then []
    else (match pieces[0] case Plain(c) => [c] case Mention(m) => Link(m)) + Render(pieces[1..])
  }

  /** The printed text with every link turned back into `@name`. */
  function Unlink(pieces: seq<Piece>): string {
    if pieces == [] then []
    else (match pieces[0] case Plain(c) => [c] case Mention(m) => "@" + m.name) + Unlink(pieces[1..])
  }

  /** The markers that were linked, in order. */
  function Linked(pieces: seq<Piece>): seq<Marker> {
    if pieces == [] then []
    else (match pieces[0] case Plain(_) => [] case Mention(m) => [m]) + Linked(pieces[1..])
  }

  function Literal(s: string): seq<Piece> {
    Map(c => Plain(c), s)
  }

  /** Pairs the tokens of `text` with `markers`; `None` when they do not match up. */
  function Scan(text: string, markers: seq<Marker>): Option<seq<Piece>>
    decreases |text|
  {
    if text == [] then if markers == [] then Some([]) else None
    else if StartsToken(text) then
      var w := Word(text[2..]);
      if markers == [] || markers[0].name != w then None
      else After([Mention(markers[0])], Scan(text[2 + |w|..], markers[1..]))
    else if text[0] == SENTINEL then Scan(text[1..], markers)
    else After([Plain(text[0])], Scan(text[1..], markers))
  }

  function After(done: seq<Piece>, rest: Option<seq<Piece>>): Option<seq<Piece>> {
    if rest.None? then None else Some(done + rest.value)
  }

  lemma AfterNothing(rest: Option<seq<Piece>>)
    ensures After([], rest) == rest
  {
    assert rest.Some? ==> [] + rest.value == rest.value;
  }

  lemma AfterAfter(a: seq<Piece>, b: seq<Piece>, rest: Option<seq<Piece>>)
    ensures After(a, After(b, rest)) == After(a + b, rest)
  {
    assert rest.Some? ==> a + (b + rest.value) == (a + b) + rest.value;
  }

  /** The pieces that are printed, fallback included. */
  function Pieces(text: string, markers: seq<Marker>): seq<Piece> {
    var scan := Scan(text, markers);
    if scan.Some? then scan.value else Literal(Erase(text))
  }

  // ---------------------------------------------------------------------------
  // The serializer
  // ---------------------------------------------------------------------------

  /** The first sentinel from a position on, or -1. */
  function IndexOfSentinel(text: string, from: nat): (at: int)
    requires from <= |text|
    ensures at == -1 || from <= at < |text|
    ensures at == -1 ==> SENTINEL !in text[from..]
    ensures at != -1 ==> text[at] == SENTINEL && SENTINEL !in text[from..at]
    decreases |text| - from
  {
    if from == |text| then -1
    else if text[from] == SENTINEL then from
    else IndexOfSentinel(text, from + 1)
  }

  /** After `cursor` characters and `used` markers, `out` is the printed form of `pieces`. */
  ghost predicate Walked(text: string, markers: seq<Marker>, cursor: nat, used: nat, pieces: seq<Piece>, out: string) {
    && cursor <= |text| && used <= |markers|
    && out == Render(pieces)
    && Scan(text, markers) == After(pieces, Scan(text[cursor..], markers[used..]))
  }

  /** Prints the draft: its rendering under `Pieces`, whatever the text and the markers are. */
  method SerializeMentions(text: string, markers: seq<Marker>) returns (printed: string)
    ensures printed == Render(Pieces(text, markers))
  {
    hide Walked, Scan, Pieces, Render, Erase, IndexOfSentinel, IsSpace, Link;
    PrintsPlain(text, markers);
    if SENTINEL !in text {
      return text;
    }
    var out: string := "";
    var cursor := 0;
    var markerIndex := 0;
    var abort := false;
    ghost var pieces: seq<Piece> := [];
    WalkStart(text, markers);
    while cursor < |text|
      invariant cursor <= |text| && !abort
      invariant Walked(text, markers, cursor, markerIndex, pieces, out)
      decreases |text| - cursor
    {
      var sentinelAt := IndexOfSentinel(text, cursor);
      if sentinelAt == -1 {
        pieces := WalkPlain(text, markers, cursor, |text|, markerIndex, pieces, out);
        out := out + text[cursor..];
        cursor := |text|;
        break;
      }
      pieces := WalkPlain(text, markers, cursor, sentinelAt, markerIndex, pieces, out);
      out := out + text[cursor..sentinelAt];
      if sentinelAt + 1 >= |text| || text[sentinelAt + 1] != '@' {
        WalkStray(text, markers, sentinelAt, markerIndex, pieces, out);
        cursor := sentinelAt + 1;
        continue;
      }
      var wordEnd := sentinelAt + 2;
      while wordEnd < |text| && !IsSpace(text[wordEnd])
        invariant sentinelAt + 2 <= wordEnd <= |text|
        invariant forall i :: sentinelAt + 2 <= i < wordEnd ==> !IsSpace(text[i])
      {
        wordEnd := wordEnd + 1;
      }
      var word := text[sentinelAt + 2..wordEnd];
      if markerIndex >= |markers| || markers[markerIndex].name != word {
        WalkMismatch(text, markers, sentinelAt, wordEnd, markerIndex, pieces, out);
        abort := true;
        break;
      }
      pieces := WalkToken(text, markers, sentinelAt, wordEnd, markerIndex, pieces, out);
      out := out + Link(markers[markerIndex]);
      markerIndex := markerIndex + 1;
      cursor := wordEnd;
    }
    if !abort {
      WalkEnd(text, markers, markerIndex, pieces, out);
    }
    if abort || markerIndex != |markers| {
      return Erase(text);
    }
    printed := out;
  }

  /** The fallback prints the draft without sentinels, which is the draft itself when it has none. */
  lemma PrintsPlain(text: string, markers: seq<Marker>)
    ensures Scan(text, markers).None? ==> Render(Pieces(text, markers)) == Erase(text)
    ensures SentinelFree(text) ==> Render(Pieces(text, markers)) == text
  {
    RenderLiteral(Erase(text));
    if SentinelFree(text) {
      ScanLiteral(text, markers);
      FilterAll(c => c != SENTINEL, text);
    }
  }

  lemma WalkStart(text: string, markers: seq<Marker>)
    ensures Walked(text, markers, 0, 0, [], "")
  {
    AfterNothing(Scan(text, markers));
  }

  lemma WalkPlain(text: string, markers: seq<Marker>, cursor: nat, stop: nat, used: nat, pieces: seq<Piece>, out: string)
      returns (next: seq<Piece>)
    requires Walked(text, markers, cursor, used, pieces, out)
    requires cursor <= stop <= |text| && SENTINEL !in text[cursor..stop]
    ensures Walked(text, markers, stop, used, next, out + text[cursor..stop])
  {
    var plain := text[cursor..stop];
    next := pieces + Literal(plain);
    assert text[cursor..] == plain + text[stop..];
    ScanPast(plain, text[stop..], markers[used..]);
    AfterAfter(pieces, Literal(plain), Scan(text[stop..], markers[used..]));
    RenderLiteral(plain);
    RenderConcat(pieces, Literal(plain));
  }

  lemma WalkStray(text: string, markers: seq<Marker>, at: nat, used: nat, pieces: seq<Piece>, out: string)
    requires Walked(text, markers, at, used, pieces, out)
    requires at < |text| && text[at] == SENTINEL && !StartsToken(text[at..])
    ensures Walked(text, markers, at + 1, used, pieces, out)
  {
    assert text[at..][1..] == text[at + 1..];
  }

  lemma WalkEnd(text: string, markers: seq<Marker>, used: nat, pieces: seq<Piece>, out: string)
    requires Walked(text, markers, |text|, used, pieces, out)
    ensures used == |markers| ==> Render(Pieces(text, markers)) == out
    ensures used != |markers| ==> Scan(text, markers).None?
  {
    assert text[|text|..] == "";
    if used == |markers| {
      assert pieces + [] == pieces;
    }
  }

  lemma WalkMismatch(text: string, markers: seq<Marker>, at: nat, end: nat, used: nat, pieces: seq<Piece>, out: string)
    requires Walked(text, markers, at, used, pieces, out)
    requires at + 2 <= end <= |text| && StartsToken(text[at..])
    requires SpaceFree(text[at + 2..end]) && (end < |text| ==> IsSpace(text[end]))
    requires used == |markers| || markers[used].name != text[at + 2..end]
    ensures Scan(text, markers).None?
  {
    WordUnique(text[at + 2..], text[at + 2..end]);
    assert text[at..][2..] == text[at + 2..];
  }

  lemma WalkToken(text: string, markers: seq<Marker>, at: nat, end: nat, used: nat, pieces: seq<Piece>, out: string)
      returns (next: seq<Piece>)
    requires Walked(text, markers, at, used, pieces, out)
    requires at + 2 <= end <= |text| && StartsToken(text[at..])
    requires SpaceFree(text[at + 2..end]) && (end < |text| ==> IsSpace(text[end]))
    requires used < |markers| && markers[used].name == text[at + 2..end]
    ensures Walked(text, markers, end, used + 1, next, out + Link(markers[used]))
  {
    var link := [Mention(markers[used])];
    next := pieces + link;
    WordUnique(text[at + 2..], text[at + 2..end]);
    assert text[at..][2..] == text[at + 2..];
    assert text[at..][end - at..] == text[end..];
    assert markers[used..][1..] == markers[used + 1..];
    AfterAfter(pieces, link, Scan(text[end..], markers[used + 1..]));
    RenderConcat(pieces, link);
    assert Render(link) == Link(markers[used]) + Render(link[1..]);
  }

  lemma {:induction false} RenderConcat(a: seq<Piece>, b: seq<Piece>)
    ensures Render(a + b) == Render(a) + Render(b)
  {
    if a == [] {
      assert a + b == b;
    } else {
      assert (a + b)[1..] == a[1..] + b;
      RenderConcat(a[1..], b);
    }
  }

  lemma {:induction false} RenderLiteral(s: string)
    ensures Render(Literal(s)) == s && Unlink(Literal(s)) == s && Linked(Literal(s)) == []
  {
    if s != [] {
      assert Literal(s)[1..] == Literal(s[1..]);
      RenderLiteral(s[1..]);
    }
  }

  /** Text without sentinels scans to itself, and only against an empty marker list. */
  lemma {:induction false} ScanLiteral(text: string, markers: seq<Marker>)
    requires SentinelFree(text)
    ensures Scan(text, markers) == if markers == [] then Some(Literal(text)) else None
  {
    if text != [] {
      ScanLiteral(text[1..], markers);
      assert Literal(text) == [Plain(text[0])] + Literal(text[1..]);
    }
  }

  lemma {:induction false} ScanPast(plain: string, text: string, markers: seq<Marker>)
    requires SentinelFree(plain)
    ensures Scan(plain + text, markers) == After(Literal(plain), Scan(text, markers))
  {
    if plain == [] {
      assert plain + text == text;
      AfterNothing(Scan(text, markers));
    } else {
      assert (plain + text)[1..] == plain[1..] + text;
      ScanPast(plain[1..], text, markers);
      AfterAfter([Plain(plain[0])], Literal(plain[1..]), Scan(text, markers));
      assert Literal(plain) == [Plain(plain[0])] + Literal(plain[1..]);
    }
  }

  lemma WordUnique(text: string, w: string)
    requires w <= text && SpaceFree(w) && (|w| < |text| ==> IsSpace(text[|w|]))
    ensures Word(text) == w
  {
    var v := Word(text);
    assert v == text[..|v|] && w == text[..|w|];
    assert forall i :: 0 <= i < |w| ==> text[i] == w[i];
    assert forall i :: 0 <= i < |v| ==> text[i] == v[i];
    assert |v| == |w|;
  }

  // ---------------------------------------------------------------------------
  // What the printed text promises
  // ---------------------------------------------------------------------------

  /**
   Links appear exactly when the words of the marked runs are, in order, the names of the markers;
   then every marker is linked once, in its own order. Otherwise nothing is linked.
   */
  lemma {:induction false} LinksExactlyWhenTokensMatch(text: string, markers: seq<Marker>)
    ensures Scan(text, markers).Some? <==> Tokens(text) == Names(markers)
    ensures Linked(Pieces(text, markers)) == if Tokens(text) == Names(markers) then markers else []
  {
    ScanMatches(text, markers);
    RenderLiteral(Erase(text));
  }

  lemma {:induction false} ScanMatches(text: string, markers: seq<Marker>)
    ensures Scan(text, markers).Some? <==> Tokens(text) == Names(markers)
    ensures Scan(text, markers).Some? ==> Linked(Scan(text, markers).value) == markers
    decreases |text|
  {
    if text == [] {
    } else if StartsToken(text) {
      var w := Word(text[2..]);
      if markers != [] {
        assert Names(markers) == [markers[0].name] + Names(markers[1..]);
        ScanMatches(text[2 + |w|..], markers[1..]);
        assert Tokens(text)[1..] == Tokens(text[2 + |w|..]);
        assert Names(markers)[1..] == Names(markers[1..]);
      }
    } else {
      ScanMatches(text[1..], markers);
    }
  }

  predicate SentinelFreeNames(markers: seq<Marker>) {
    forall i :: 0 <= i < |markers| ==> SentinelFree(markers[i].name)
  }

  /** No text is lost: turning every printed link back into `@name` gives the draft the user saw. */
  lemma SerializingKeepsText(text: string, markers: seq<Marker>)
    requires SentinelFreeNames(markers)
    ensures Unlink(Pieces(text, markers)) == Erase(text)
  {
    if Scan(text, markers).Some? {
      ScanKeepsText(text, markers);
    } else {
      RenderLiteral(Erase(text));
    }
  }

  lemma {:induction false} ScanKeepsText(text: string, markers: seq<Marker>)
    requires SentinelFreeNames(markers) && Scan(text, markers).Some?
    ensures Unlink(Scan(text, markers).value) == Erase(text)
    decreases |text|
  {
    if text == [] {
    } else if StartsToken(text) {
      var w := Word(text[2..]);
      var rest := text[2 + |w|..];
      ScanKeepsText(rest, markers[1..]);
      var keep := c => c != SENTINEL;
      assert text == [SENTINEL] + (['@'] + w) + rest;
      FilterConcat(keep, [SENTINEL] + (['@'] + w), rest);
      FilterConcat(keep, [SENTINEL], ['@'] + w);
      FilterAll(keep, ['@'] + w);
      assert Filter(keep, [SENTINEL]) == [];
      assert Erase(text) == (['@'] + w) + Erase(rest);
    } else {
      ScanKeepsText(text[1..], markers);
    }
  }

  /** The printed text never contains a sentinel. */
  lemma SerializingDropsSentinels(text: string, markers: seq<Marker>)
    requires SentinelFreeNames(markers)
    requires forall i :: 0 <= i < |markers| ==> SentinelFree(markers[i].id)
    ensures SentinelFree(Render(Pieces(text, markers)))
  {
    if Scan(text, markers).Some? {
      ScanDropsSentinels(text, markers);
    } else {
      RenderLiteral(Erase(text));
    }
  }

  lemma LinkSentinelFree(m: Marker)
    requires SentinelFree(m.name) && SentinelFree(m.id)
    ensures SentinelFree(Link(m))
  {
    assert SentinelFree(TypeName(m.kind));
    assert SentinelFree("](mention://");
  }

  lemma {:induction false} ScanDropsSentinels(text: string, markers: seq<Marker>)
    requires SentinelFreeNames(markers) && Scan(text, markers).Some?
    requires forall i :: 0 <= i < |markers| ==> SentinelFree(markers[i].id)
    ensures SentinelFree(Render(Scan(text, markers).value))
    decreases |text|
  {
    if text == [] {
    } else if StartsToken(text) {
      LinkSentinelFree(markers[0]);
      ScanDropsSentinels(text[2 + |Word(text[2..])|..], markers[1..]);
    } else {
      ScanDropsSentinels(text[1..], markers);
    }
  }

  /**
   A marker name with a space can never be linked by its own run: the word read back stops at the
   space, so the whole draft falls back to plain text.
   */
  lemma SpacedNameFallsBack(text: string, markers: seq<Marker>, i: nat)
    requires i < |markers| && !SpaceFree(markers[i].name)
    ensures Linked(Pieces(text, markers)) == []
    ensures Render(Pieces(text, markers)) == Erase(text)
  {
    TokensSpaceFree(text);
    LinksExactlyWhenTokensMatch(text, markers);
    assert !SpaceFree(Names(markers)[i]);
    assert i < |Tokens(text)| ==> SpaceFree(Tokens(text)[i]);
    RenderLiteral(Erase(text));
  }

  lemma {:induction false} TokensSpaceFree(text: string)
    ensures forall i :: 0 <= i < |Tokens(text)| ==> SpaceFree(Tokens(text)[i])
    decreases |text|
  {
    if text == [] {
    } else if StartsToken(text) {
      TokensSpaceFree(text[2 + |Word(text[2..])|..]);
    } else {
      TokensSpaceFree(text[1..]);
    }
  }
}
