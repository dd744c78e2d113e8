/**
 The editing session behind the comment composer: text, selection, the ordered markers, and the
 `@query` in progress. Each handler is a method; the pure `Step` it implements carries the proofs
 about whole sessions.
 */
module MentionInput {
  import opened Common
  import opened MentionSerialize

  datatype Selection = Selection(start: int, end: int)

  datatype Token = Token(start: nat, query: string)

  // ---------------------------------------------------------------------------
  // The token under the caret
  // ---------------------------------------------------------------------------

  /** An `@` after white space or at the start of the text, with neither `@` nor white space up to the caret. */
  predicate IsToken(text: string, cursor: int, start: nat) {
    && start < cursor <= |text|
    && text[start] == '@'
    && (start == 0 || IsSpace(text[start - 1]))
    && forall i :: start < i < cursor ==> text[i] != '@' && !IsSpace(text[i])
  }

  ghost function TokenAt(text: string, cursor: int): (token: Option<Token>) {
    if exists start: nat :: IsToken(text, cursor, start) then
      var start: nat :| IsToken(text, cursor, start);
      Some(Token(start, text[start + 1..cursor]))
    else None
  }

  lemma TokenUnique(text: string, cursor: int, a: nat, b: nat)
    requires IsToken(text, cursor, a) && IsToken(text, cursor, b)
    ensures a == b
  {
  }

  method TokenAtCursor(text: string, cursor: int) returns (token: Option<Token>)
    ensures token == TokenAt(text, cursor)
    ensures token.Some? ==> IsToken(text, cursor, token.value.start) &&
                            token.value.query == text[token.value.start + 1..cursor]
    ensures token.None? ==> forall start: nat :: !IsToken(text, cursor, start)
  {
    if cursor < 1 || cursor > |text| {
      return None;
    }
    var i := cursor - 1;
    while i >= 0 && text[i] != '@'
      invariant -1 <= i < cursor
      invariant forall j :: i < j < cursor ==> text[j] != '@' && !IsSpace(text[j])
    {
      if IsSpace(text[i]) {
        assert !IsSpace('@');
        return None;
      }
      i := i - 1;
    }
    if i < 0 {
      return None;
    }
    if i > 0 && text[i - 1] == SENTINEL {
      assert !IsSpace(SENTINEL);
      return None;
    }
    if i > 0 && !IsSpace(text[i - 1]) {
      return None;
    }
    assert IsToken(text, cursor, i);
    forall start: nat | IsToken(text, cursor, start) ensures start == i {
      TokenUnique(text, cursor, start, i);
    }
    var query := text[i + 1..cursor];
    token := Some(Token(i, query));
  }

  // ---------------------------------------------------------------------------
  // The session as a state machine
  // ---------------------------------------------------------------------------

  datatype Draft = Draft(text: string, selection: Selection, markers: seq<Marker>, mentioning: Option<Token>)

  const EMPTY := Draft("", Selection(0, 0), [], None)

  datatype Event =
    | ChangeText(next: string)
    | MoveCaret(selection: Selection)
    | PressAt
    | SelectMention(mention: Marker)
    | InsertText(insert: string, back: int)
    | PrefixLine(prefix: string)
    | Reset

  /** Where a slice starts or ends: negative offsets count from the end, all are clamped. */
  function Clamp(text: string, at: int): (r: nat)
    ensures r <= |text|
  {
    if at > |text| then |text| else if at >= 0 then at else if |text| + at >= 0 then |text| + at else 0
  }

  function Before(text: string, at: int): string {
    text[..Clamp(text, at)]
  }

  function From(text: string, at: int): string {
    text[Clamp(text, at)..]
  }

  /** What the suggestion bar inserts for a mention. */
  function Inserted(m: Marker): string {
    [SENTINEL, '@'] + m.name + " "
  }

  /** The start of the line that ends with `before`. */
  function LineStart(before: string): (at: nat)
    ensures at <= |before|
    ensures at == 0 || before[at - 1] == '\n'
    ensures '\n' !in before[at..]
  {
    if before == "" then 0
    else if before[|before| - 1] == '\n' then |before|
    else LineStart(before[..|before| - 1])
  }

  function AtInsert(before: string): string {
    if before != "" && !IsSpace(before[|before| - 1]) then " @" else "@"
  }

  ghost function Step(d: Draft, e: Event): Draft {
    match e
    case ChangeText(next) =>
      d.(text := next, mentioning := TokenAt(next, d.selection.end))
    case MoveCaret(selection) =>
      d.(selection := selection, mentioning := TokenAt(d.text, selection.end))
    case PressAt =>
      var before := Before(d.text, d.selection.start);
      var next := before + AtInsert(before) + From(d.text, d.selection.end);
      var cursor := |before| + |AtInsert(before)|;
      d.(text := next, selection := Selection(cursor, cursor), mentioning := TokenAt(next, cursor))
    case SelectMention(m) =>
      if d.mentioning.None? then d
      else
        var t := d.mentioning.value;
        var before := Before(d.text, t.start);
        var next := before + Inserted(m) + From(d.text, t.start + 1 + |t.query|);
        var cursor := |before| + |Inserted(m)|;
        Draft(next, Selection(cursor, cursor), d.markers + [m], None)
    case InsertText(insert, back) =>
      var before := Before(d.text, d.selection.start);
      var cursor := |before| + |insert| - back;
      d.(text := before + insert + From(d.text, d.selection.end),
         selection := Selection(cursor, cursor), mentioning := None)
    case PrefixLine(prefix) =>
      var at := LineStart(Before(d.text, d.selection.start));
      var cursor := d.selection.end + |prefix|;
      d.(text := d.text[..at] + prefix + d.text[at..],
         selection := Selection(cursor, cursor), mentioning := None)
    case Reset => EMPTY
  }

  ghost function Run(d: Draft, events: seq<Event>): Draft
    decreases |events|
  {
    if events == [] then d else Run(Step(d, events[0]), events[1..])
  }

  class MentionInput {
    var text: string
    var selection: Selection
    var markers: seq<Marker>
    var mentioning: Option<Token>

    ghost function Current(): Draft
      reads this
    {
      Draft(text, selection, markers, mentioning)
    }

    constructor ()
      ensures Current() == EMPTY
    {
      text, selection, markers, mentioning := "", Selection(0, 0), [], None;
    }

    method OnChangeText(next: string)
      modifies this
      ensures Current() == Step(old(Current()), ChangeText(next))
    {
      text := next;
      mentioning := TokenAtCursor(next, selection.end);
    }

    method OnSelectionChange(sel: Selection)
      modifies this
      ensures Current() == Step(old(Current()), MoveCaret(sel))
    {
      selection := sel;
      mentioning := TokenAtCursor(text, sel.end);
    }

    method OnAtButtonPress()
      modifies this
      ensures Current() == Step(old(Current()), PressAt)
    {
      hide Before, From, Inserted, IsToken, TokenAt;
      var before := Before(text, selection.start);
      var after := From(text, selection.end);
      var needsPad := |before| > 0 && !IsSpace(before[|before| - 1]);
      var inserted := (if needsPad then " " else "") + "@";
      assert inserted == AtInsert(before);
      hide AtInsert, Before, From, IsSpace, IsToken, TokenAt;
      var next := before + inserted + after;
      var cursor := |before| + |inserted|;
      text := next;
      selection := Selection(cursor, cursor);
      mentioning := TokenAtCursor(next, cursor);
    }

    method OnSelectMention(mention: Marker)
      modifies this
      ensures Current() == Step(old(Current()), SelectMention(mention))
    {
      if mentioning.None? {
        return;
      }
      var before := Before(text, mentioning.value.start);
      var after := From(text, mentioning.value.start + 1 + |mentioning.value.query|);
      var insert := [SENTINEL] + "@" + mention.name + " ";
      assert insert == Inserted(mention);
      text := before + insert + after;
      var cursor := |before| + |insert|;
      selection := Selection(cursor, cursor);
      markers := markers + [mention];
      mentioning := None;
    }

    method InsertAtCursor(insert: string, cursorOffsetFromEnd: int)
      modifies this
      ensures Current() == Step(old(Current()), InsertText(insert, cursorOffsetFromEnd))
    {
      var before := Before(text, selection.start);
      var after := From(text, selection.end);
      var cursor := |before| + |insert| - cursorOffsetFromEnd;
      text := before + insert + after;
      selection := Selection(cursor, cursor);
      mentioning := None;
    }

    method InsertAtLineStart(prefix: string)
      modifies this
      ensures Current() == Step(old(Current()), PrefixLine(prefix))
    {
      var lineStart := LineStart(Before(text, selection.start));
      var cursor := selection.end + |prefix|;
      text := text[..lineStart] + prefix + text[lineStart..];
      selection := Selection(cursor, cursor);
      mentioning := None;
    }

    method Serialize() returns (printed: string)
      ensures printed == Render(Pieces(text, markers))
    {
      printed := SerializeMentions(text, markers);
    }

    method ResetAll()
      modifies this
      ensures Current() == Step(old(Current()), Reset)
    {
      text, selection, markers, mentioning := "", Selection(0, 0), [], None;
    }
  }

  // ---------------------------------------------------------------------------
  // Tokens of an edited text
  // ---------------------------------------------------------------------------

  ghost predicate Boundary(a: string) {
    a == "" || IsSpace(a[|a| - 1])
  }

  lemma {:induction false} WordOfConcat(a: string, b: string)
    requires a != "" && IsSpace(a[|a| - 1])
    ensures Word(a + b) == Word(a) && |Word(a)| < |a|
  {
    if !IsSpace(a[0]) {
      assert (a + b)[1..] == a[1..] + b;
      WordOfConcat(a[1..], b);
    }
  }

  lemma TokensAtMark(text: string)
    requires StartsToken(text)
    ensures var w := Word(text[2..]);
            Tokens(text) == [w] + Tokens(text[2 + |w|..])
  {
  }

  lemma TokensElsewhere(text: string)
    requires text != "" && !StartsToken(text)
    ensures Tokens(text) == Tokens(text[1..])
  {
  }

  /** What follows a boundary neither starts nor extends a token before it. */
  lemma BoundaryStart(a: string, b: string)
    requires Boundary(a) && a != ""
    ensures StartsToken(a + b) <==> StartsToken(a)
    ensures StartsToken(a) ==> |a| > 2 && Boundary(a[2..])
    ensures Boundary(a[1..])
  {
    assert !IsSpace(SENTINEL) && !IsSpace('@');
  }

  lemma {:induction false} TokensConcat(a: string, b: string)
    requires Boundary(a)
    ensures Tokens(a + b) == Tokens(a) + Tokens(b)
    decreases |a|, 1
  {
    hide Word, Tokens, StartsToken, IsSpace;
    if a == "" {
      assert a + b == b;
      TokensOfNothing();
    } else {
      BoundaryStart(a, b);
      hide Boundary;
      if StartsToken(a) {
        TokensConcatAtMark(a, b);
      } else {
        assert (a + b)[1..] == a[1..] + b;
        TokensElsewhere(a);
        TokensElsewhere(a + b);
        TokensConcat(a[1..], b);
      }
    }
  }

  lemma TokensOfNothing()
    ensures Tokens("") == []
  {
  }

  lemma {:induction false} TokensConcatAtMark(a: string, b: string)
    requires Boundary(a) && StartsToken(a)
    ensures Tokens(a + b) == Tokens(a) + Tokens(b)
    decreases |a|, 0
  {
    hide IsSpace, SpaceFree, Tokens, Word;
    BoundaryStart(a, b);
    var w := |Word(a[2..])|;
    WordOfConcat(a[2..], b);
    assert Boundary(a[2 + w..]);
    hide Word, Tokens, StartsToken, IsSpace, Boundary;
    assert (a + b)[2..] == a[2..] + b;
    assert (a + b)[2 + w..] == a[2 + w..] + b;
    TokensAtMark(a);
    TokensAtMark(a + b);
    TokensConcat(a[2 + w..], b);
  }

  lemma {:induction false} TokensSkipPlain(plain: string, b: string)
    requires SentinelFree(plain)
    ensures Tokens(plain + b) == Tokens(b)
  {
    if plain == "" {
      assert plain + b == b;
    } else {
      assert (plain + b)[1..] == plain[1..] + b;
      TokensSkipPlain(plain[1..], b);
    }
  }

  lemma TokensOfPlain(plain: string)
    requires SentinelFree(plain)
    ensures Tokens(plain) == []
  {
    TokensSkipPlain(plain, "");
    assert plain + "" == plain;
  }

  lemma PlainTail(text: string, n: nat, at: nat)
    requires n <= at <= |text| && Boundary(text[..n]) && SentinelFree(text[n..])
    ensures Tokens(text[..at]) == Tokens(text[..n])
  {
    var tail := text[n..at];
    assert forall c :: c in tail ==> c in text[n..];
    assert text[..at] == text[..n] + tail;
    TokensConcat(text[..n], tail);
    TokensOfPlain(tail);
  }

  lemma TokensOfInserted(m: Marker)
    requires SpaceFree(m.name)
    ensures Tokens(Inserted(m)) == [m.name]
  {
    var text := Inserted(m);
    assert text[2..] == m.name + " ";
    WordUnique(text[2..], m.name);
    assert text[2 + |m.name|..] == " ";
    TokensOfPlain(" ");
  }

  /** Putting a mention between two pieces of text puts its name between their tokens. */
  lemma TokensAround(before: string, m: Marker, after: string)
    requires Boundary(before) && SpaceFree(m.name)
    ensures Tokens(before + Inserted(m) + after) == Tokens(before) + [m.name] + Tokens(after)
  {
    hide Tokens, SpaceFree;
    assert Boundary(before + Inserted(m)) && Boundary(Inserted(m));
    TokensOfInserted(m);
    TokensConcat(before, Inserted(m));
    TokensConcat(before + Inserted(m), after);
  }

  // ---------------------------------------------------------------------------
  // Sessions that keep every mention linkable
  // ---------------------------------------------------------------------------

  /**
   Everything up to `n` holds exactly the tokens of the markers and ends at a word boundary;
   the rest, where the user is writing, has no sentinel.
   */
  ghost predicate Anchored(d: Draft, n: nat) {
    && n <= |d.text|
    && Boundary(d.text[..n])
    && Tokens(d.text[..n]) == Names(d.markers)
    && SentinelFree(d.text[n..])
    && n <= d.selection.start <= d.selection.end
    && (d.mentioning.Some? ==>
          var t := d.mentioning.value;
          n <= t.start && IsToken(d.text, t.start + 1 + |t.query|, t.start))
  }

  /** The edits a session may make: anything after the last mention, never inside or before one. */
  ghost predicate Allowed(d: Draft, n: nat, e: Event)
    requires n <= |d.text|
  {
    match e
    case ChangeText(next) => n <= |next| && next[..n] == d.text[..n] && SentinelFree(next[n..])
    case MoveCaret(selection) => n <= selection.start <= selection.end
    case PressAt => true
    case SelectMention(m) => SpaceFree(m.name)
    case InsertText(insert, back) => SentinelFree(insert) && 0 <= back <= |insert|
    case PrefixLine(prefix) => SentinelFree(prefix)
    case Reset => true
  }

  /** Where the writing area starts after the event. */
  ghost function NextAnchor(d: Draft, n: nat, e: Event): nat
    requires n <= |d.text|
  {
    match e
    case SelectMention(m) =>
      if d.mentioning.None? then n else |Before(d.text, d.mentioning.value.start)| + |Inserted(m)|
    case PrefixLine(prefix) =>
      if LineStart(Before(d.text, d.selection.start)) < n then n + |prefix| else n
    case Reset => 0
    case _ => n
  }

  ghost predicate AllowedRun(d: Draft, n: nat, events: seq<Event>)
    decreases |events|
  {
    events == [] ||
    (n <= |d.text| && Allowed(d, n, events[0]) &&
     AllowedRun(Step(d, events[0]), NextAnchor(d, n, events[0]), events[1..]))
  }

  /** A token found by a caret in the writing area lies in the writing area. */
  lemma TokenInTail(text: string, n: nat, cursor: int)
    requires n <= |text| && Boundary(text[..n]) && n <= cursor
    ensures var t := TokenAt(text, cursor);
            t.Some? ==> n <= t.value.start && IsToken(text, t.value.start + 1 + |t.value.query|, t.value.start)
  {
    var t := TokenAt(text, cursor);
    if t.Some? {
      assert IsToken(text, cursor, t.value.start);
      assert n > 0 ==> text[..n][n - 1] == text[n - 1];
      assert !IsSpace('@');
    }
  }

  lemma StepKeepsAnchor(d: Draft, n: nat, e: Event)
    requires Anchored(d, n) && Allowed(d, n, e)
    ensures Anchored(Step(d, e), NextAnchor(d, n, e))
  {
    match e
    case ChangeText(next) => TokenInTail(next, n, d.selection.end);
    case MoveCaret(selection) => TokenInTail(d.text, n, selection.end);
    case PressAt => StepPressAt(d, n);
    case SelectMention(m) => StepSelect(d, n, m);
    case InsertText(insert, back) => StepInsert(d, n, insert);
    case PrefixLine(prefix) => StepPrefix(d, n, prefix);
    case Reset => TokensOfPlain("");
  }

  /** Text replacing the selection stays in the writing area. */
  lemma StepInsert(d: Draft, n: nat, insert: string)
    requires Anchored(d, n) && SentinelFree(insert)
    ensures var next := Before(d.text, d.selection.start) + insert + From(d.text, d.selection.end);
            n <= |Before(d.text, d.selection.start)| && next[..n] == d.text[..n] && SentinelFree(next[n..])
  {
    var lo, hi := Clamp(d.text, d.selection.start), Clamp(d.text, d.selection.end);
    var next := d.text[..lo] + insert + d.text[hi..];
    assert n <= lo <= hi;
    assert next[n..] == d.text[n..][..lo - n] + insert + d.text[n..][hi - n..];
  }

  lemma StepPressAt(d: Draft, n: nat)
    requires Anchored(d, n)
    ensures Anchored(Step(d, PressAt), n)
  {
    var before := Before(d.text, d.selection.start);
    hide Tokens, TokenAt, IsToken, Boundary, Names;
    var cursor, next := |before| + |AtInsert(before)|, Step(d, PressAt);
    StepInsert(d, n, AtInsert(before));
    PressedDraft(d);
    hide Step, Before, From, AtInsert, Boundary, SentinelFree, Anchored;
    AnchorKept(d, n, next, cursor);
  }

  /** A caret behind the writing area's start finds its token there. */
  lemma AnchorKept(d: Draft, n: nat, next: Draft, cursor: nat)
    requires Anchored(d, n) && n <= |next.text| && next.text[..n] == d.text[..n] && SentinelFree(next.text[n..])
    requires next.markers == d.markers && n <= cursor && next.selection == Selection(cursor, cursor)
    requires next.mentioning == TokenAt(next.text, cursor)
    ensures Anchored(next, n)
  {
    hide Tokens, TokenAt, Boundary, IsToken, SentinelFree;
    TokenInTail(next.text, n, cursor);
  }

  lemma PressedDraft(d: Draft)
    ensures var before := Before(d.text, d.selection.start);
            var next := Step(d, PressAt);
            var cursor := |before| + |AtInsert(before)|;
            && next.text == before + AtInsert(before) + From(d.text, d.selection.end)
            && next.selection == Selection(cursor, cursor)
            && next.markers == d.markers && next.mentioning == TokenAt(next.text, cursor)
  {
    hide Before, AtInsert, From, TokenAt;
  }

  /** The draft after picking a mention for a token that lies in the text. */
  lemma SelectedDraft(d: Draft, m: Marker)
    requires d.mentioning.Some?
    requires var t := d.mentioning.value; t.start + 1 + |t.query| <= |d.text|
    ensures var t := d.mentioning.value;
            var next := Step(d, SelectMention(m));
            var caret := t.start + |Inserted(m)|;
            && next.text == d.text[..t.start] + Inserted(m) + d.text[t.start + 1 + |t.query|..]
            && next.selection == Selection(caret, caret)
            && next.markers == d.markers + [m] && next.mentioning == None
  {
  }

  lemma StepSelect(d: Draft, n: nat, m: Marker)
    requires Anchored(d, n) && SpaceFree(m.name)
    ensures Anchored(Step(d, SelectMention(m)), NextAnchor(d, n, SelectMention(m)))
  {
    hide AtInsert, Clamp, From, Inserted, IsSpace, LineStart, Map, SpaceFree, TokenAt, Tokens;
    if d.mentioning.None? {
      return;
    }
    var t := d.mentioning.value;
    SelectedDraft(d, m);
    assert Before(d.text, t.start) == d.text[..t.start];
    hide IsToken, Tokens, SpaceFree, IsSpace, Step, Before;
    var before, after := d.text[..t.start], d.text[t.start + 1 + |t.query|..];
    var next := before + Inserted(m) + after;
    var n' := t.start + |Inserted(m)|;
    assert Boundary(before) by {
      TokenStartsAtBoundary(d.text, t);
    }
    PlainTail(d.text, n, t.start);
    assert next[..n'] == before + Inserted(m) + "";
    TokensOfPlain("");
    TokensAround(before, m, "");
    assert Names(d.markers + [m]) == Names(d.markers) + [m.name];
    assert next[n'..] == after == d.text[n..][t.start + 1 + |t.query| - n..];
    assert Boundary(next[..n']) by {
      EndsInSpace(m);
    }
    hide Boundary, Inserted;
  }

  lemma EndsInSpace(m: Marker)
    ensures Inserted(m) != "" && IsSpace(Inserted(m)[|Inserted(m)| - 1])
  {
  }

  lemma TokenStartsAtBoundary(text: string, t: Token)
    requires IsToken(text, t.start + 1 + |t.query|, t.start)
    ensures Boundary(text[..t.start])
  {
  }

  lemma StepPrefix(d: Draft, n: nat, prefix: string)
    requires Anchored(d, n) && SentinelFree(prefix)
    ensures Anchored(Step(d, PrefixLine(prefix)), NextAnchor(d, n, PrefixLine(prefix)))
  {
    var at := LineStart(Before(d.text, d.selection.start));
    assert Boundary(d.text[..at]);
    PrefixedDraft(d, prefix);
    var next := Step(d, PrefixLine(prefix));
    assert NextAnchor(d, n, PrefixLine(prefix)) == if at < n then n + |prefix| else n;
    assert n <= d.selection.start <= d.selection.end;
    hide LineStart, Before, Step, NextAnchor, Boundary, SentinelFree, Anchored;
    if at < n {
      AnchorMoves(d, n, at, prefix, next);
    } else {
      AnchorStays(d, n, at, prefix, next);
    }
  }

  /** Text put in the writing area. */
  lemma AnchorStays(d: Draft, n: nat, at: nat, prefix: string, next: Draft)
    requires Anchored(d, n) && SentinelFree(prefix) && n <= at <= |d.text|
    requires next.text == d.text[..at] + prefix + d.text[at..] && next.markers == d.markers && next.mentioning == None
    requires n <= next.selection.start <= next.selection.end
    ensures Anchored(next, n)
  {
    InsertedAfter(d.text, n, at, prefix);
    hide Tokens, IsSpace, Boundary, IsToken, SentinelFree;
  }

  lemma InsertedAfter(text: string, n: nat, at: nat, prefix: string)
    requires n <= at <= |text| && SentinelFree(text[n..]) && SentinelFree(prefix)
    ensures var next := text[..at] + prefix + text[at..];
            n <= |next| && next[..n] == text[..n] && SentinelFree(next[n..])
  {
    var next := text[..at] + prefix + text[at..];
    forall i | n <= i < |next| ensures next[i] != SENTINEL {
      if i < at {
        assert next[i] == text[n..][i - n];
      } else if at + |prefix| <= i {
        assert next[i] == text[n..][i - |prefix| - n];
      } else {
        assert next[i] == prefix[i - at];
      }
    }
  }

  /** Text put at a boundary before it. */
  lemma AnchorMoves(d: Draft, n: nat, at: nat, prefix: string, next: Draft)
    requires Anchored(d, n) && SentinelFree(prefix) && at < n && Boundary(d.text[..at])
    requires next.text == d.text[..at] + prefix + d.text[at..] && next.markers == d.markers && next.mentioning == None
    requires n + |prefix| <= next.selection.start <= next.selection.end
    ensures Anchored(next, n + |prefix|)
  {
    PrefixInside(d.text, n, at, prefix);
    StepPrefixBoundary(d.text, n, at, prefix);
    hide Tokens, IsSpace, Boundary, IsToken, SentinelFree;
  }

  lemma PrefixedDraft(d: Draft, prefix: string)
    ensures var at := LineStart(Before(d.text, d.selection.start));
            var next := Step(d, PrefixLine(prefix));
            var cursor := d.selection.end + |prefix|;
            && next.text == d.text[..at] + prefix + d.text[at..]
            && next.selection == Selection(cursor, cursor)
            && next.markers == d.markers && next.mentioning == None
  {
    hide LineStart;
  }

  lemma StepPrefixBoundary(text: string, n: nat, at: nat, prefix: string)
    requires at < n <= |text| && Boundary(text[..n])
    ensures var next := text[..at] + prefix + text[at..];
            Boundary(next[..n + |prefix|])
  {
    var next := text[..at] + prefix + text[at..];
    assert next[n + |prefix| - 1] == text[n - 1];
  }

  lemma InsertPlain(a: string, prefix: string, b: string)
    requires Boundary(a) && SentinelFree(prefix)
    ensures Tokens(a + (prefix + b)) == Tokens(a + b)
  {
    TokensConcat(a, b);
    TokensConcat(a, prefix + b);
    TokensSkipPlain(prefix, b);
  }

  /** Plain text put at a word boundary leaves the tokens alone. */
  lemma PrefixInside(text: string, n: nat, at: nat, prefix: string)
    requires at < n <= |text| && Boundary(text[..at]) && SentinelFree(prefix)
    ensures var next := text[..at] + prefix + text[at..];
            Tokens(next[..n + |prefix|]) == Tokens(text[..n]) && next[n + |prefix|..] == text[n..] &&
            next[..n + |prefix|][n + |prefix| - 1] == text[n - 1]
  {
    hide SentinelFree, Tokens;
    var a, b := text[..at], text[at..n];
    assert text[..n] == a + b;
    InsertPlain(a, prefix, b);
    assert text[at..] == b + text[n..];
    assert a + prefix + text[at..] == (a + (prefix + b)) + text[n..];
  }

  /**
   In every session that only edits after the last mention, each marked run prints as the link of its
   own marker: every marker is linked, in order, and nothing falls back to plain text.
   */
  lemma {:induction false} SessionLinksEveryMention(d: Draft, n: nat, events: seq<Event>)
    requires Anchored(d, n) && AllowedRun(d, n, events)
    ensures var final := Run(d, events);
            Linked(Pieces(final.text, final.markers)) == final.markers && Scan(final.text, final.markers).Some?
    decreases |events|
  {
    if events == [] {
      assert d.text == d.text[..n] + d.text[n..];
      TokensConcat(d.text[..n], d.text[n..]);
      TokensOfPlain(d.text[n..]);
      assert Tokens(d.text) == Names(d.markers);
      LinksExactlyWhenTokensMatch(d.text, d.markers);
    } else {
      StepKeepsAnchor(d, n, events[0]);
      SessionLinksEveryMention(Step(d, events[0]), NextAnchor(d, n, events[0]), events[1..]);
    }
  }

  /** Text is only appended, the caret is at the end of it, and mention names have no white space. */
  ghost predicate AppendOnly(d: Draft, events: seq<Event>)
    decreases |events|
  {
    events == [] ||
    (&& (match events[0]
         case ChangeText(next) => d.text <= next && SentinelFree(next[|d.text|..])
         case MoveCaret(selection) => selection == Selection(|d.text|, |d.text|)
         case SelectMention(m) => SpaceFree(m.name)
         case _ => false)
     && AppendOnly(Step(d, events[0]), events[1..]))
  }

  lemma {:induction false} AppendOnlyAllowed(d: Draft, n: nat, events: seq<Event>)
    requires Anchored(d, n) && AppendOnly(d, events)
    ensures AllowedRun(d, n, events)
    decreases |events|
  {
    if events != [] {
      if events[0].ChangeText? {
        var next := events[0].next;
        assert next[..|d.text|] == d.text;
        assert next[n..] == d.text[n..] + next[|d.text|..];
      }
      StepKeepsAnchor(d, n, events[0]);
      AppendOnlyAllowed(Step(d, events[0]), NextAnchor(d, n, events[0]), events[1..]);
    }
  }

  lemma AppendOnlySessionLinks(events: seq<Event>)
    requires AppendOnly(EMPTY, events)
    ensures var final := Run(EMPTY, events);
            Linked(Pieces(final.text, final.markers)) == final.markers && Scan(final.text, final.markers).Some?
  {
    TokensOfPlain("");
    AppendOnlyAllowed(EMPTY, 0, events);
    SessionLinksEveryMention(EMPTY, 0, events);
  }

  // ---------------------------------------------------------------------------
  // A mention inserted before existing ones
  // ---------------------------------------------------------------------------

  /**
   Markers are appended in the order they are picked, not in text order. Picking a mention with other
   marked runs after the caret keeps the draft linkable exactly when all of those runs carry the very
   name being picked; otherwise the whole draft prints without links.
   */
  lemma InsertBeforeMentions(d: Draft, m: Marker)
    requires Tokens(d.text) == Names(d.markers)
    requires d.mentioning.Some? && SpaceFree(m.name) && SentinelFree(d.mentioning.value.query)
    requires var t := d.mentioning.value;
             IsToken(d.text, t.start + 1 + |t.query|, t.start) && d.text[t.start + 1..t.start + 1 + |t.query|] == t.query
    ensures var t := d.mentioning.value;
            var later := Tokens(d.text[t.start + 1 + |t.query|..]);
            var next := Step(d, SelectMention(m));
            Scan(next.text, next.markers).Some? <==> forall i :: 0 <= i < |later| ==> later[i] == m.name
  {
    hide After, AtInsert, Before, Boundary, Clamp, From, Inserted, IsSpace, LineStart, Names, Scan, SentinelFree;
    hide Filter, Map, SpaceFree, StartsToken, Step, TokenAt, Tokens, Word;
    var t := d.mentioning.value;
    assert t.start + 1 + |t.query| <= |d.text|;
    hide IsToken, Tokens, Scan, SpaceFree, SentinelFree, Boundary, Step, Inserted, Names;
    SplitAtQuery(d.text, t);
    SelectedDraft(d, m);
    PickedBetween(d.text[..t.start], m, d.text[t.start + 1 + |t.query|..], d.markers);
  }

  lemma PickedBetween(before: string, m: Marker, after: string, markers: seq<Marker>)
    requires Boundary(before) && SpaceFree(m.name) && Tokens(before) + Tokens(after) == Names(markers)
    ensures var later := Tokens(after);
            Scan(before + Inserted(m) + after, markers + [m]).Some? <==> forall i :: 0 <= i < |later| ==> later[i] == m.name
  {
    hide Tokens, Scan, SpaceFree, Boundary, Inserted, Names, Pieces, Linked;
    TokensAround(before, m, after);
    LinksExactlyWhenTokensMatch(before + Inserted(m) + after, markers + [m]);
    NamesPush(markers, m);
    Rotate(Tokens(before), Tokens(after), m.name);
  }

  lemma NamesPush(markers: seq<Marker>, m: Marker)
    ensures Names(markers + [m]) == Names(markers) + [m.name]
  {
  }

  lemma SplitAtQuery(text: string, t: Token)
    requires IsToken(text, t.start + 1 + |t.query|, t.start) && SentinelFree(t.query)
    requires text[t.start + 1..t.start + 1 + |t.query|] == t.query
    ensures Boundary(text[..t.start])
    ensures Tokens(text) == Tokens(text[..t.start]) + Tokens(text[t.start + 1 + |t.query|..])
  {
    TokenStartsAtBoundary(text, t);
    assert text[t.start] == '@' && t.start + 1 + |t.query| <= |text|;
    assert SentinelFree("@" + t.query);
    hide IsToken, Tokens, IsSpace, Boundary, SentinelFree;
    var before, after := text[..t.start], text[t.start + 1 + |t.query|..];
    assert text == before + (("@" + t.query) + after);
    TokensConcat(before, ("@" + t.query) + after);
    TokensSkipPlain("@" + t.query, after);
  }

  lemma Rotate(a: seq<string>, b: seq<string>, x: string)
    ensures a + [x] + b == a + b + [x] <==> forall i :: 0 <= i < |b| ==> b[i] == x
  {
    if a + [x] + b == a + b + [x] {
      Shifted(b, x, a, |b|);
    }
    if forall i :: 0 <= i < |b| ==> b[i] == x {
      assert [x] + b == b + [x];
      assert a + [x] + b == a + ([x] + b);
      assert a + b + [x] == a + (b + [x]);
    }
  }

  lemma {:induction false} Shifted(b: seq<string>, x: string, a: seq<string>, k: nat)
    requires a + [x] + b == a + b + [x] && k <= |b|
    ensures forall i :: 0 <= i < k ==> b[i] == x
  {
    if k > 0 {
      Shifted(b, x, a, k - 1);
      assert (a + [x] + b)[|a| + k - 1] == (a + b + [x])[|a| + k - 1];
    }
  }

  // ---------------------------------------------------------------------------
  // Picking a mention from the keyboard
  // ---------------------------------------------------------------------------

  /** The caret is a proper selection of the draft. */
  predicate Selects(d: Draft) {
    0 <= d.selection.start <= d.selection.end <= |d.text|
  }

  function Left(d: Draft): string
    requires Selects(d)
  {
    d.text[..d.selection.start]
  }

  function Right(d: Draft): string
    requires Selects(d)
  {
    d.text[d.selection.end..]
  }

  /** What pressing the button puts before the `@`: a space unless white space or nothing is there. */
  function Pad(before: string): string {
    if before == "" || IsSpace(before[|before| - 1]) then "" else " "
  }

  lemma PadIsBoundary(before: string)
    ensures Boundary(before + Pad(before))
  {
    assert IsSpace(' ');
  }

  /** An `@` at a boundary and a word after it up to the caret make a token. */
  lemma TokenThere(before: string, query: string, after: string)
    requires Boundary(before) && forall c :: c in query ==> c != '@' && !IsSpace(c)
    ensures TokenAt(before + "@" + query + after, |before| + 1 + |query|) == Some(Token(|before|, query))
  {
    hide IsSpace;
    var text, cursor := before + "@" + query + after, |before| + 1 + |query|;
    forall i | |before| < i < cursor ensures text[i] != '@' && !IsSpace(text[i]) {
      assert text[i] == query[i - |before| - 1] && query[i - |before| - 1] in query;
    }
    assert before != "" ==> text[|before| - 1] == before[|before| - 1];
    assert IsToken(text, cursor, |before|);
    assert text[|before| + 1..cursor] == query;
    forall start: nat | IsToken(text, cursor, start) ensures start == |before| {
      TokenUnique(text, cursor, start, |before|);
    }
  }

  /** Pressing the button opens an empty query at the caret, set off from the text before it. */
  lemma PressOpensQuery(d: Draft)
    requires Selects(d)
    ensures var before := Left(d) + Pad(Left(d));
            var caret := |before| + 1;
            Step(d, PressAt) ==
            Draft(before + "@" + Right(d), Selection(caret, caret), d.markers, Some(Token(|before|, "")))
  {
    hide IsSpace, TokenAt;
    var before := Left(d) + Pad(Left(d));
    PadIsBoundary(Left(d));
    TokenThere(before, "", Right(d));
    assert before + "@" + "" + Right(d) == before + "@" + Right(d);
    assert Left(d) + AtInsert(Left(d)) + Right(d) == before + "@" + Right(d);
  }

  /**
   The whole gesture, wherever the caret is: pressing the button, typing a query, and picking a name replaces
   the query, and nothing else, by the marked name and a space, appends the marker and leaves the caret there.
   */
  lemma PickingReplacesQuery(d: Draft, query: string, m: Marker)
    requires Selects(d) && forall c :: c in query ==> c != '@' && !IsSpace(c)
    ensures var before := Left(d) + Pad(Left(d));
            var typed := before + "@" + query;
            var picked := before + [SENTINEL, '@'] + m.name + " ";
            Run(d, [PressAt, ChangeText(typed + Right(d)), MoveCaret(Selection(|typed|, |typed|)), SelectMention(m)]) ==
            Draft(picked + Right(d), Selection(|picked|, |picked|), d.markers + [m], None)
  {
    hide IsSpace, TokenAt;
    var before, after := Left(d) + Pad(Left(d)), Right(d);
    var typed := before + "@" + query;
    var picked := before + [SENTINEL, '@'] + m.name + " ";
    var moved := MoveCaret(Selection(|typed|, |typed|));
    PressOpensQuery(d);
    PadIsBoundary(Left(d));
    TokenThere(before, query, after);
    var changed := Step(Step(d, PressAt), ChangeText(typed + after));
    var open := Step(changed, moved);
    assert open == Draft(typed + after, Selection(|typed|, |typed|), d.markers, Some(Token(|before|, query)));
    PickReplaces(open, before, query, after, m);
    RunFour(d, PressAt, ChangeText(typed + after), moved, SelectMention(m));
  }

  lemma PickReplaces(d: Draft, before: string, query: string, after: string, m: Marker)
    requires d.text == before + "@" + query + after && d.mentioning == Some(Token(|before|, query))
    ensures var picked := before + [SENTINEL, '@'] + m.name + " ";
            Step(d, SelectMention(m)) == Draft(picked + after, Selection(|picked|, |picked|), d.markers + [m], None)
  {
    assert Before(d.text, |before|) == before;
    assert From(d.text, |before| + 1 + |query|) == after;
    assert before + Inserted(m) == before + [SENTINEL, '@'] + m.name + " ";
  }

  lemma RunFour(d: Draft, a: Event, b: Event, c: Event, e: Event)
    ensures Run(d, [a, b, c, e]) == Step(Step(Step(Step(d, a), b), c), e)
  {
    hide Step;
    assert [a, b, c, e][1..] == [b, c, e] && [b, c, e][1..] == [c, e] && [c, e][1..] == [e] && [e][1..] == [];
    assert Run(Step(Step(Step(d, a), b), c), [e]) == Step(Step(Step(Step(d, a), b), c), e);
    assert Run(Step(Step(d, a), b), [c, e]) == Run(Step(Step(Step(d, a), b), c), [e]);
    assert Run(Step(d, a), [b, c, e]) == Run(Step(Step(d, a), b), [c, e]);
  }

  /** The formatting buttons add to the draft: taking the addition out again gives the text outside the selection. */
  lemma ButtonsOnlyAdd(d: Draft, insert: string, back: int, prefix: string) returns (at: nat)
    requires Selects(d)
    ensures var next := Step(d, InsertText(insert, back));
            && next.text == Left(d) + insert + Right(d) && next.markers == d.markers && next.mentioning == None
            && next.selection.start == next.selection.end == |Left(d)| + |insert| - back
    ensures at <= d.selection.start && (at == 0 || d.text[at - 1] == '\n') && '\n' !in d.text[at..d.selection.start]
    ensures var next := Step(d, PrefixLine(prefix));
            && next.text == d.text[..at] + prefix + d.text[at..] && next.markers == d.markers && next.mentioning == None
            && next.selection.start == next.selection.end == d.selection.end + |prefix|
  {
    at := LineStart(Left(d));
    assert Left(d)[at..] == d.text[at..d.selection.start];
  }

  /** `token` is the open query at the caret, if the text has one there. */
  ghost predicate Tracks(text: string, cursor: int, token: Option<Token>) {
    && (token.None? <==> forall start: nat :: !IsToken(text, cursor, start))
    && (token.Some? ==>
          IsToken(text, cursor, token.value.start) && token.value.query == text[token.value.start + 1..cursor])
  }

  /** After every change of the text and every move of the caret the query is the one at the caret. */
  lemma QueryFollowsCaret(d: Draft, text: string, selection: Selection)
    ensures var typed := Step(d, ChangeText(text));
            && typed.text == text && typed.selection == d.selection && typed.markers == d.markers
            && Tracks(text, d.selection.end, typed.mentioning)
    ensures var moved := Step(d, MoveCaret(selection));
            && moved.text == d.text && moved.selection == selection && moved.markers == d.markers
            && Tracks(d.text, selection.end, moved.mentioning)
  {
    hide IsToken;
  }
}
