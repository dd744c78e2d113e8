/**
 Reading a printed draft back: the mentions and the text a reader of the markdown finds in it. The reader
 knows the link syntax only, not how drafts are printed.
 */
module MentionLinks {
  import opened Common
  import opened MentionSerialize

  /** A link found at the start of a text, and what follows it. */
  datatype Found = Found(kind: MentionType, id: string, name: string, rest: string)

  /** The part before the first `stop`, when there is one. */
  function Until(text: string, stop: char): (r: Option<string>)
    ensures r.Some? ==> |r.value| < |text| && text[..|r.value|] == r.value && text[|r.value|] == stop && stop !in r.value
    ensures r.None? ==> stop !in text
  {
    if text == "" then None
    else if text[0] == stop then Some("")
    else
      var r := Until(text[1..], stop);
      if r.None? then None else Some([text[0]] + r.value)
  }

  /** The part after a prefix, when the text starts with it. */
  function Past(text: string, prefix: string): (r: Option<string>)
    ensures r.Some? <==> prefix <= text
    ensures r.Some? ==> text == prefix + r.value
  {
    if prefix <= text then Some(text[|prefix|..]) else None
  }

  function KindOf(word: string): Option<MentionType> {
    if word == "member" then Some(Member)
    else if word == "agent" then Some(Agent)
    else if word == "squad" then Some(Squad)
    else if word == "all" then Some(All)
    else if word == "issue" then Some(Issue)
    else None
  }

  /** The label of a caption: one leading `@` is not part of it unless it is all there is. */
  function LabelOf(caption: string): string {
    if |caption| > 1 && caption[0] == '@' then caption[1..] else caption
  }

  /** A type word, `/`, an id without `)`, and `)`. */
  function ReadTarget(name: string, target: string): (found: Option<Found>)
    ensures found.Some? ==> |found.value.rest| < |target| && found.value.name == name
    ensures found.Some? ==> found.value.id != "" && ')' !in found.value.id
  {
    var word := Until(target, '/');
    if word.None? || KindOf(word.value).None? then None
    else
      var tail := target[|word.value| + 1..];
      var id := Until(tail, ')');
      if id.None? || id.value == "" then None
      else Some(Found(KindOf(word.value).value, id.value, name, tail[|id.value| + 1..]))
  }

  /** `[`, a caption without `]`, `](mention://`, and a target. */
  function ReadLink(text: string): (found: Option<Found>)
    ensures found.Some? ==> |found.value.rest| < |text|
    ensures found.Some? ==> found.value.name != "" && ']' !in found.value.name
    ensures found.Some? ==> found.value.id != "" && ')' !in found.value.id
  {
    if text == "" || text[0] != '[' then None
    else
      var caption := Until(text[1..], ']');
      if caption.None? || caption.value == "" then None
      else
        var target := Past(text[1 + |caption.value|..], "](mention://");
        if target.None? then None else ReadTarget(LabelOf(caption.value), target.value)
  }

  /** Who is mentioned, in order. */
  function MentionsIn(text: string): seq<(MentionType, string, string)>
    decreases |text|
  {
    if text == "" then []
    else
      var found := ReadLink(text);
      if found.None? then MentionsIn(text[1..])
      else [(found.value.kind, found.value.id, found.value.name)] + MentionsIn(found.value.rest)
  }

  /** The text as read: every link stands for `@` and its label. */
  function TextIn(text: string): string
    decreases |text|
  {
    if text == "" then ""
    else
      var found := ReadLink(text);
      if found.None? then [text[0]] + TextIn(text[1..])
      else "@" + found.value.name + TextIn(found.value.rest)
  }

  // ---------------------------------------------------------------------------
  // One link
  // ---------------------------------------------------------------------------

  /** The syntax has room for the marker. */
  predicate Readable(m: Marker) {
    && m.name != "" && ']' !in m.name
    && m.id != "" && ')' !in m.id
    && (m.kind == Issue ==> LabelOf(m.name) == m.name)
  }

  lemma {:induction false} UntilAt(part: string, stop: char, rest: string)
    requires stop !in part
    ensures Until(part + [stop] + rest, stop) == Some(part)
  {
    var text := part + [stop] + rest;
    if part != "" {
      assert text[1..] == part[1..] + [stop] + rest;
      UntilAt(part[1..], stop, rest);
      assert part == [part[0]] + part[1..];
    }
  }

  lemma KindRead(kind: MentionType)
    ensures KindOf(TypeName(kind)) == Some(kind) && '/' !in TypeName(kind)
  {
    assert forall i :: 0 <= i < |TypeName(kind)| ==> TypeName(kind)[i] != '/';
  }

  function Caption(m: Marker): string {
    if m.kind == Issue then m.name else "@" + m.name
  }

  lemma LinkParts(m: Marker, rest: string)
    ensures Link(m) + rest ==
            ['['] + (Caption(m) + ("](mention://" + (TypeName(m.kind) + ['/'] + (m.id + [')'] + rest))))
  {
    hide TypeName;
  }

  /** Reading a bracketed caption comes down to reading its target. */
  lemma ReadsCaption(caption: string, target: string)
    requires ']' !in caption && caption != ""
    ensures ReadLink(['['] + (caption + ("](mention://" + target))) == ReadTarget(LabelOf(caption), target)
  {
    hide Until, LabelOf, ReadTarget;
    var tail := "](mention://" + target;
    var text := ['['] + (caption + tail);
    assert text[1..] == caption + tail;
    assert text[1 + |caption|..] == tail;
    assert caption + tail == caption + [']'] + tail[1..];
    UntilAt(caption, ']', tail[1..]);
  }

  /** What the reader finds in a printed link whose name and id leave its syntax intact. */
  lemma ReadsPrintedLink(m: Marker, rest: string)
    requires ']' !in m.name && Caption(m) != "" && m.id != "" && ')' !in m.id
    ensures ReadLink(Link(m) + rest) == Some(Found(m.kind, m.id, LabelOf(Caption(m)), rest))
  {
    hide Link, TypeName, LabelOf, ReadTarget, ReadLink;
    LinkParts(m, rest);
    ReadsCaption(Caption(m), TypeName(m.kind) + ['/'] + (m.id + [')'] + rest));
    ReadsTarget(m, LabelOf(Caption(m)), rest);
  }

  lemma ReadsTarget(m: Marker, name: string, rest: string)
    requires m.id != "" && ')' !in m.id
    ensures ReadTarget(name, TypeName(m.kind) + ['/'] + (m.id + [')'] + rest)) == Some(Found(m.kind, m.id, name, rest))
  {
    hide Until, KindOf, TypeName;
    var tail := m.id + [')'] + rest;
    var target := TypeName(m.kind) + ['/'] + tail;
    KindRead(m.kind);
    UntilAt(TypeName(m.kind), '/', tail);
    assert target[|TypeName(m.kind)| + 1..] == tail;
    UntilAt(m.id, ')', rest);
    assert tail[|m.id| + 1..] == rest;
  }

  /** A printed link is read as its own marker exactly when the syntax has room for it. */
  lemma LinkReadsBackExactly(m: Marker, rest: string)
    ensures ReadLink(Link(m) + rest) == Some(Found(m.kind, m.id, m.name, rest)) <==> Readable(m)
  {
    hide ReadLink, Link;
    if Readable(m) || ReadLink(Link(m) + rest) == Some(Found(m.kind, m.id, m.name, rest)) {
      ReadsPrintedLink(m, rest);
    }
  }

  // ---------------------------------------------------------------------------
  // The printed draft
  // ---------------------------------------------------------------------------

  function MentionOf(m: Marker): (MentionType, string, string) {
    (m.kind, m.id, m.name)
  }

  predicate NoBracket(p: Piece) {
    match p
    case Plain(c) => c != '['
    case Mention(m) => Readable(m)
  }

  lemma {:induction false} RenderedReadsBack(pieces: seq<Piece>)
    requires forall p :: p in pieces ==> NoBracket(p)
    ensures MentionsIn(Render(pieces)) == Map(MentionOf, Linked(pieces))
    ensures TextIn(Render(pieces)) == Unlink(pieces)
  {
    if pieces != [] {
      var p, rest := pieces[0], pieces[1..];
      RenderedReadsBack(rest);
      assert NoBracket(p);
      match p
      case Plain(c) =>
        PlainRead(c, Render(rest));
        assert Linked(pieces) == Linked(rest);
      case Mention(m) =>
        LinkReadsBackExactly(m, Render(rest));
        LinkRead(m, Render(rest));
        MapCons(MentionOf, m, Linked(rest));
    }
  }

  lemma PlainRead(c: char, rest: string)
    requires c != '['
    ensures MentionsIn([c] + rest) == MentionsIn(rest) && TextIn([c] + rest) == [c] + TextIn(rest)
  {
    assert ([c] + rest)[1..] == rest;
  }

  lemma LinkRead(m: Marker, rest: string)
    requires ReadLink(Link(m) + rest) == Some(Found(m.kind, m.id, m.name, rest))
    ensures MentionsIn(Link(m) + rest) == [MentionOf(m)] + MentionsIn(rest)
    ensures TextIn(Link(m) + rest) == "@" + m.name + TextIn(rest)
  {
    hide ReadLink;
  }

  /**
   Whatever is sent is read back: the mentions read from the printed draft are the linked markers in order,
   kind, id and name, and the text read from it is the draft the user saw.
   */
  lemma PrintedReadsBack(text: string, markers: seq<Marker>)
    requires '[' !in text && forall m :: m in markers ==> Readable(m) && SentinelFree(m.name)
    ensures var printed := Render(Pieces(text, markers));
            && MentionsIn(printed) ==
               (if Tokens(text) == Names(markers) then Map(MentionOf, markers) else [])
            && TextIn(printed) == Erase(text)
  {
    var pieces := Pieces(text, markers);
    PiecesFree(text, markers);
    RenderedReadsBack(pieces);
    LinksExactlyWhenTokensMatch(text, markers);
    SerializingKeepsText(text, markers);
  }

  lemma PiecesFree(text: string, markers: seq<Marker>)
    requires '[' !in text && forall m :: m in markers ==> Readable(m)
    ensures forall p :: p in Pieces(text, markers) ==> NoBracket(p)
  {
    hide NoBracket, Readable;
    if Scan(text, markers).Some? {
      ScanFree(text, markers);
    } else {
      hide Scan;
      forall p | p in Literal(Erase(text)) ensures NoBracket(p) {
        var i :| 0 <= i < |Literal(Erase(text))| && Literal(Erase(text))[i] == p;
        assert Erase(text)[i] in text;
        PlainFree(Erase(text)[i]);
      }
    }
  }

  lemma PlainFree(c: char)
    requires c != '['
    ensures NoBracket(Plain(c))
  {
  }

  lemma MentionFree(m: Marker)
    requires Readable(m)
    ensures NoBracket(Mention(m))
  {
  }

  lemma {:induction false} ScanFree(text: string, markers: seq<Marker>)
    requires '[' !in text && (forall m :: m in markers ==> Readable(m)) && Scan(text, markers).Some?
    ensures forall p :: p in Scan(text, markers).value ==> NoBracket(p)
    decreases |text|
  {
    hide NoBracket, Readable, Word, IsSpace;
    if text != "" {
      if StartsToken(text) {
        var w := |Word(text[2..])|;
        assert forall c :: c in text[2 + w..] ==> c in text;
        MentionFree(markers[0]);
        ScanFree(text[2 + w..], markers[1..]);
      } else {
        assert forall c :: c in text[1..] ==> c in text;
        PlainFree(text[0]);
        ScanFree(text[1..], markers);
      }
    }
  }
}
