/** The text rendered for built-in declarations, and where in it each of them stands (src/builtins/native_layout.rs).
    A character here is one byte of the UTF-8 text, so indices are the byte offsets of the marks. */
module NativeLayout {
  import opened Wrappers
  import opened LineIndex

  datatype TypeRecord = Native | Class | Struct | Enum

  datatype MemberRecord = Field | Method | EnumOption

  datatype Mark = Mark(byte: nat, line: nat, column: nat)

  datatype Span = Span(start: Mark, end: Mark)

  datatype DeclarationSpans = DeclarationSpans(range: Span, selection: Span)

  datatype TypeHeader = TypeHeader(record: TypeRecord, name: string, base: Option<string>, isAbstract: bool)

  datatype Member = Member(record: MemberRecord, name: string, detail: string)

  lemma Assoc(a: string, b: string, c: string)
    ensures a + (b + c) == a + b + c
  {
  }

  /* What a mark should say. */

  /** The newlines before the byte, and the bytes since the last of them. */
  function MarkAt(text: string, byte: nat): Mark
    requires byte <= |text|
  {
    Mark(byte, Newlines(text[..byte]), byte - AfterLastNewline(text[..byte]))
  }

  predicate TrueMark(text: string, m: Mark) {
    m.byte <= |text| && m == MarkAt(text, m.byte)
  }

  predicate TrueSpan(text: string, s: Span) {
    TrueMark(text, s.start) && TrueMark(text, s.end) && s.start.byte <= s.end.byte
  }

  function Slice(text: string, s: Span): string
    requires s.start.byte <= s.end.byte <= |text|
  {
    text[s.start.byte..s.end.byte]
  }

  /** The spans are those of a declaration in the text: `whole` is its text, and its name is selected inside it. */
  predicate Declares(text: string, d: DeclarationSpans, whole: string, name: string) {
    && TrueSpan(text, d.range) && TrueSpan(text, d.selection)
    && d.range.start.byte <= d.selection.start.byte && d.selection.end.byte <= d.range.end.byte
    && Slice(text, d.range) == whole && Slice(text, d.selection) == name
  }

  lemma MarkStays(text: string, more: string, m: Mark)
    requires TrueMark(text, m)
    ensures TrueMark(text + more, m)
  {
    assert (text + more)[..m.byte] == text[..m.byte];
  }

  /** What is true of the text stays true as the text grows. */
  lemma DeclaresStays(text: string, more: string, d: DeclarationSpans, whole: string, name: string)
    requires Declares(text, d, whole, name)
    ensures Declares(text + more, d, whole, name)
  {
    MarkStays(text, more, d.range.start);
    MarkStays(text, more, d.range.end);
    MarkStays(text, more, d.selection.start);
    MarkStays(text, more, d.selection.end);
    assert Slice(text + more, d.range) == Slice(text, d.range);
    assert Slice(text + more, d.selection) == Slice(text, d.selection);
  }

  /* The writer. */

  class LayoutWriter {
    var text: string
    var line: nat
    var lineStart: nat

    predicate Valid()
      reads this
    {
      line == Newlines(text) && lineStart == AfterLastNewline(text)
    }

    constructor ()
      ensures Valid() && text == ""
    {
      text, line, lineStart := "", 0, 0;
    }

    method Push(fragment: string)
      requires Valid()
      modifies this
      ensures Valid() && text == old(text) + fragment
    {
      var base := |text|;
      text := text + fragment;
      assert old(text) + fragment[..0] == old(text);
      for offset := 0 to |fragment|
        invariant text == old(text) + fragment
        invariant line == Newlines(old(text) + fragment[..offset])
        invariant lineStart == AfterLastNewline(old(text) + fragment[..offset])
      {
        assert (old(text) + fragment[..offset + 1])[..base + offset] == old(text) + fragment[..offset];
        if fragment[offset] == '\n' {
          line := line + 1;
          lineStart := base + offset + 1;
        }
      }
      assert fragment[..|fragment|] == fragment;
    }

    method MarkHere() returns (m: Mark)
      requires Valid()
      ensures m == MarkAt(text, |text|)
    {
      m := Mark(|text|, line, |text| - lineStart);
      assert text[..|text|] == text;
    }

    method PushSpanned(fragment: string) returns (s: Span)
      requires Valid()
      modifies this
      ensures Valid() && text == old(text) + fragment
      ensures TrueSpan(text, s) && s.start.byte == |old(text)| && s.end.byte == |text| && Slice(text, s) == fragment
    {
      var start := MarkHere();
      MarkStays(text, fragment, start);
      Push(fragment);
      var end := MarkHere();
      s := Span(start, end);
    }
  }

  /* The texts. */

  function Keyword(record: TypeRecord): string {
    match record case Struct => "struct " case Enum => "enum " case _ => "class "
  }

  function HeaderFront(h: TypeHeader): string {
    (if h.isAbstract then "abstract " else "") + Keyword(h.record)
  }

  function HeaderBack(h: TypeHeader): string {
    (match h.base case Some(b) => " extends " + b case None => "") + " {"
  }

  function MemberFront(m: Member): string {
    match m.record case Field => "import var " case Method => "import function " case EnumOption => ""
  }

  function MemberBack(m: Member): string {
    match m.record case Field => " : " + m.detail + ";" case Method => "(...);" case EnumOption => " = " + m.detail
  }

  function MemberText(m: Member): string {
    MemberFront(m) + m.name + MemberBack(m)
  }

  function Separator(m: Member, index: nat): string {
    (if m.record.EnumOption? && index > 0 then "," else "") + "\n    "
  }

  /** The first `n` members, each after its separator. */
  function MembersText(members: seq<Member>, n: nat): string
    requires n <= |members|
  {
    if n == 0 then "" else MembersText(members, n - 1) + Separator(members[n - 1], n - 1) + MemberText(members[n - 1])
  }

  function TypeText(h: TypeHeader, members: seq<Member>): string {
    Opening(h) + MembersText(members, |members|) + Closing(members != [])
  }

  function GlobalText(name: string): string {
    "import function " + name + "(...);"
  }

  function GlobalsText(names: seq<string>, n: nat): string
    requires n <= |names|
  {
    if n == 0 then "" else GlobalsText(names, n - 1) + GlobalText(names[n - 1]) + "\n"
  }

  /** Declarations one after another. */
  predicate InOrder(ds: seq<DeclarationSpans>) {
    forall i, j :: 0 <= i < j < |ds| ==> ds[i].range.end.byte <= ds[j].range.start.byte
  }

  /** What has been reported is true of the text, in order and from byte `from` on: the declarations' texts are `wholes`,
      their names `names`. */
  predicate Reported(text: string, wholes: seq<string>, names: seq<string>, reported: seq<DeclarationSpans>, from: nat) {
    && |wholes| == |names| == |reported| && InOrder(reported)
    && forall k :: 0 <= k < |reported| ==>
         Declares(text, reported[k], wholes[k], names[k]) && from <= reported[k].range.start.byte
  }

  lemma ReportedStays(
      text: string, wholes: seq<string>, names: seq<string>, reported: seq<DeclarationSpans>, from: nat, more: string)
    requires Reported(text, wholes, names, reported, from)
    ensures Reported(text + more, wholes, names, reported, from)
  {
    forall k | 0 <= k < |reported|
      ensures Declares(text + more, reported[k], wholes[k], names[k])
    {
      DeclaresStays(text, more, reported[k], wholes[k], names[k]);
    }
  }

  lemma {:induction false} ReportedMore(
      text: string, wholes: seq<string>, names: seq<string>, reported: seq<DeclarationSpans>, from: nat,
      after: string, d: DeclarationSpans, whole: string, name: string)
    requires Reported(text, wholes, names, reported, from) && from <= |text| <= d.range.start.byte
    requires Reported(after, wholes, names, reported, from) && Declares(after, d, whole, name)
    ensures Reported(after, wholes + [whole], names + [name], reported + [d], from)
  {
    forall k | 0 <= k < |reported|
      ensures reported[k].range.end.byte <= |text|
    {
      assert Declares(text, reported[k], wholes[k], names[k]);
    }
  }

  /** A declaration written after a separator. */
  lemma OneMoreReported(
      text: string, wholes: seq<string>, names: seq<string>, reported: seq<DeclarationSpans>, from: nat,
      separator: string, whole: string, after: string, d: DeclarationSpans, name: string)
    requires Reported(text, wholes, names, reported, from) && from <= |text|
    requires after == text + separator + whole && d.range.start.byte >= |text| && Declares(after, d, whole, name)
    ensures Reported(after, wholes + [whole], names + [name], reported + [d], from)
  {
    Assoc(text, separator, whole);
    ReportedStays(text, wholes, names, reported, from, separator + whole);
    ReportedMore(text, wholes, names, reported, from, after, d, whole, name);
  }

  /* Rendering. */

  /** A name marked between a front and a back. */
  lemma {:induction false} NameDeclared(before: string, front: string, name: string, back: string, d: DeclarationSpans)
    requires TrueSpan(before + front + name, d.selection)
    requires d.selection.start.byte == |before + front| && d.selection.end.byte == |before + front + name|
    requires var text := before + (front + name + back);
      d.range.start == MarkAt(before, |before|) && d.range.end == MarkAt(text, |text|)
    ensures Declares(before + (front + name + back), d, front + name + back, name)
  {
    var named := before + front + name;
    Regroup(before, front, name, back);
    MarkStays(before, front + name + back, d.range.start);
    MarkStays(named, back, d.selection.start);
    MarkStays(named, back, d.selection.end);
    Whole(before, front + name + back);
    SliceOf(before + front, name, back);
  }

  lemma Regroup(before: string, front: string, name: string, back: string)
    ensures before + (front + name + back) == before + front + name + back
  {
    Assoc(before, front + name, back);
    Assoc(before, front, name);
  }

  lemma Whole(a: string, b: string)
    ensures (a + b)[|a|..|a + b|] == b
  {
  }

  lemma SliceOf(a: string, b: string, c: string)
    ensures (a + b + c)[|a|..|a + b|] == b
  {
  }

  /** A declaration written as `front`, its name and `back`. */
  method WriteDeclaration(writer: LayoutWriter, front: string, name: string, back: string) returns (d: DeclarationSpans)
    requires writer.Valid()
    modifies writer
    ensures writer.Valid() && writer.text == old(writer.text) + (front + name + back)
    ensures d.range.start.byte == |old(writer.text)| && d.range.end.byte == |writer.text|
    ensures Declares(writer.text, d, front + name + back, name)
  {
    var start := writer.MarkHere();
    ghost var before := writer.text;
    writer.Push(front);
    var selection := writer.PushSpanned(name);
    writer.Push(back);
    var end := writer.MarkHere();
    d := DeclarationSpans(Span(start, end), selection);
    Assoc(before, front, name);
    Assoc(before, front + name, back);
    NameDeclared(before, front, name, back, d);
  }

  method RenderMember(writer: LayoutWriter, index: nat, member: Member) returns (d: DeclarationSpans)
    requires writer.Valid()
    modifies writer
    ensures writer.Valid() && writer.text == old(writer.text) + Separator(member, index) + MemberText(member)
    ensures d.range.start.byte == |old(writer.text) + Separator(member, index)| && d.range.end.byte == |writer.text|
    ensures Declares(writer.text, d, MemberText(member), member.name)
  {
    if member.record.EnumOption? && index > 0 {
      writer.Push(",");
    }
    writer.Push("\n    ");
    assert writer.text == old(writer.text) + Separator(member, index);
    d := WriteDeclaration(writer, MemberFront(member), member.name, MemberBack(member));
  }

  function MemberTexts(members: seq<Member>, n: nat): (r: seq<string>)
    requires n <= |members|
    ensures |r| == n
  {
    if n == 0 then [] else MemberTexts(members, n - 1) + [MemberText(members[n - 1])]
  }

  function MemberNames(members: seq<Member>, n: nat): (r: seq<string>)
    requires n <= |members|
    ensures |r| == n
  {
    if n == 0 then [] else MemberNames(members, n - 1) + [members[n - 1].name]
  }

  /** Where a member starts, counted from where the members start: after those before it and its separator. */
  function MemberOffset(members: seq<Member>, k: nat): nat
    requires k < |members|
  {
    |MembersText(members, k)| + |Separator(members[k], k)|
  }

  /** The first `n` members have been written from byte `from` on, and reported. */
  predicate MembersReported(text: string, members: seq<Member>, n: nat, reported: seq<DeclarationSpans>, from: nat) {
    && n <= |members| && n == |reported|
    && Reported(text, MemberTexts(members, n), MemberNames(members, n), reported, from)
    && forall k :: 0 <= k < n ==> reported[k].range.start.byte == from + MemberOffset(members, k)
  }

  /** The loop over the members. */
  method RenderMembers(writer: LayoutWriter, members: seq<Member>) returns (reported: seq<DeclarationSpans>)
    requires writer.Valid()
    modifies writer
    ensures writer.Valid() && writer.text == old(writer.text) + MembersText(members, |members|)
    ensures MembersReported(writer.text, members, |members|, reported, |old(writer.text)|)
  {
    reported := [];
    ghost var opening := writer.text;
    for i := 0 to |members|
      invariant writer.Valid() && writer.text == opening + MembersText(members, i)
      invariant MembersReported(writer.text, members, i, reported, |opening|)
    {
      ghost var before := writer.text;
      var d := RenderMember(writer, i, members[i]);
      MemberReported(before, members, i, reported, |opening|, d, writer.text);
      MemberAppended(opening, members, i);
      reported := reported + [d];
    }
  }

  lemma {:induction false} MemberReported(before: string, members: seq<Member>, i: nat, reported: seq<DeclarationSpans>, from: nat,
                       d: DeclarationSpans, after: string)
    requires i < |members| && |before| == from + |MembersText(members, i)|
    requires MembersReported(before, members, i, reported, from)
    requires after == before + Separator(members[i], i) + MemberText(members[i])
    requires Declares(after, d, MemberText(members[i]), members[i].name)
    requires d.range.start.byte == |before| + |Separator(members[i], i)|
    ensures MembersReported(after, members, i + 1, reported + [d], from)
  {
    OneMoreReported(before, MemberTexts(members, i), MemberNames(members, i), reported, from, Separator(members[i], i),
                    MemberText(members[i]), after, d, members[i].name);
    OneMoreStart(members, i, reported, from, d);
  }

  lemma {:induction false} OneMoreStart(members: seq<Member>, i: nat, reported: seq<DeclarationSpans>, from: nat, d: DeclarationSpans)
    requires i < |members| && |reported| == i && d.range.start.byte == from + MemberOffset(members, i)
    requires forall k :: 0 <= k < i ==> reported[k].range.start.byte == from + MemberOffset(members, k)
    ensures forall k :: 0 <= k < i + 1 ==> (reported + [d])[k].range.start.byte == from + MemberOffset(members, k)
  {
  }

  lemma MemberAppended(opening: string, members: seq<Member>, i: nat)
    requires i < |members|
    ensures opening + MembersText(members, i) + Separator(members[i], i) + MemberText(members[i])
         == opening + MembersText(members, i + 1)
  {
    Assoc(opening, MembersText(members, i), Separator(members[i], i));
    Assoc(opening, MembersText(members, i) + Separator(members[i], i), MemberText(members[i]));
  }

  function Opening(h: TypeHeader): string {
    HeaderFront(h) + h.name + HeaderBack(h)
  }

  function Closing(hasMembers: bool): string {
    (if hasMembers then "\n" else "") + "}\n"
  }

  /** Everything up to the members. */
  method RenderHeader(writer: LayoutWriter, header: TypeHeader) returns (selection: Span)
    requires writer.Valid() && writer.text == ""
    modifies writer
    ensures writer.Valid() && writer.text == Opening(header)
    ensures TrueSpan(writer.text, selection) && Slice(writer.text, selection) == header.name
  {
    if header.isAbstract {
      writer.Push("abstract ");
    }
    writer.Push(Keyword(header.record));
    assert writer.text == HeaderFront(header);
    selection := writer.PushSpanned(header.name);
    ghost var named := writer.text;
    if header.base.Some? {
      writer.Push(" extends ");
      writer.Push(header.base.value);
    }
    writer.Push(" {");
    if header.base.Some? {
      Assoc(named, " extends ", header.base.value);
      Assoc(named, " extends " + header.base.value, " {");
    }
    assert writer.text == named + HeaderBack(header);
    SpanStays(named, HeaderBack(header), selection);
  }

  lemma SpanStays(text: string, more: string, s: Span)
    requires TrueSpan(text, s)
    ensures TrueSpan(text + more, s) && Slice(text + more, s) == Slice(text, s)
  {
    MarkStays(text, more, s.start);
    MarkStays(text, more, s.end);
  }

  /** `render_type`, with the reported spans as a result: the members' in order, and the header's. */
  method RenderType(header: TypeHeader, members: seq<Member>)
      returns (text: string, reported: seq<DeclarationSpans>, whole: DeclarationSpans)
    ensures text == TypeText(header, members)
    ensures MembersReported(text, members, |members|, reported, |Opening(header)|)
    ensures Declares(text, whole, text, header.name) && whole.selection.end.byte <= |Opening(header)|
  {
    var writer := new LayoutWriter();
    var start := writer.MarkHere();
    var selection := RenderHeader(writer, header);
    reported := RenderMembers(writer, members);
    ghost var body := writer.text;
    RenderClosing(writer, members != []);
    var end := writer.MarkHere();
    text := writer.text;
    whole := DeclarationSpans(Span(start, end), selection);
    MembersStay(body, members, reported, |Opening(header)|, Closing(members != []));
    WholeDeclared(header, members, text, whole);
  }

  method RenderClosing(writer: LayoutWriter, hasMembers: bool)
    requires writer.Valid()
    modifies writer
    ensures writer.Valid() && writer.text == old(writer.text) + Closing(hasMembers)
  {
    ghost var body := writer.text;
    if hasMembers {
      writer.Push("\n");
    }
    writer.Push("}\n");
    Assoc(body, if hasMembers then "\n" else "", "}\n");
  }

  lemma MembersStay(text: string, members: seq<Member>, reported: seq<DeclarationSpans>, from: nat, more: string)
    requires MembersReported(text, members, |members|, reported, from)
    ensures MembersReported(text + more, members, |members|, reported, from)
  {
    ReportedStays(text, MemberTexts(members, |members|), MemberNames(members, |members|), reported, from, more);
  }

  lemma {:induction false} WholeDeclared(header: TypeHeader, members: seq<Member>, text: string, whole: DeclarationSpans)
    requires text == TypeText(header, members)
    requires TrueSpan(Opening(header), whole.selection) && Slice(Opening(header), whole.selection) == header.name
    requires whole.range.start == Mark(0, 0, 0) && whole.range.end == MarkAt(text, |text|)
    ensures Declares(text, whole, text, header.name)
  {
    var more := MembersText(members, |members|) + Closing(members != []);
    Assoc(Opening(header), MembersText(members, |members|), Closing(members != []));
    SpanStays(Opening(header), more, whole.selection);
    assert text[..0] == "" && text[0..|text|] == text;
  }

  function GlobalTexts(names: seq<string>, n: nat): (r: seq<string>)
    requires n <= |names|
    ensures |r| == n && forall k :: 0 <= k < n ==> r[k] == GlobalText(names[k])
  {
    if n == 0 then [] else GlobalTexts(names, n - 1) + [GlobalText(names[n - 1])]
  }

  /** `render_globals`, with the reported spans as a result. */
  method RenderGlobals(names: seq<string>) returns (text: string, reported: seq<DeclarationSpans>)
    ensures text == GlobalsText(names, |names|)
    ensures Reported(text, GlobalTexts(names, |names|), names, reported, 0)
  {
    var writer := new LayoutWriter();
    reported := [];
    for i := 0 to |names|
      invariant writer.Valid() && |reported| == i && writer.text == GlobalsText(names, i)
      invariant Reported(writer.text, GlobalTexts(names, i), names[..i], reported, 0)
    {
      ghost var before := writer.text;
      var d := WriteDeclaration(writer, "import function ", names[i], "(...);");
      GlobalReported(before, names, i, reported, d, writer.text);
      writer.Push("\n");
      reported := reported + [d];
    }
    assert names[..|names|] == names;
    text := writer.text;
  }

  lemma {:induction false} GlobalReported(before: string, names: seq<string>, i: nat, reported: seq<DeclarationSpans>, d: DeclarationSpans,
                       after: string)
    requires i < |names| && Reported(before, GlobalTexts(names, i), names[..i], reported, 0)
    requires after == before + GlobalText(names[i]) && Declares(after, d, GlobalText(names[i]), names[i])
    requires |before| <= d.range.start.byte
    ensures Reported(after + "\n", GlobalTexts(names, i + 1), names[..i + 1], reported + [d], 0)
  {
    GlobalAdded(before, GlobalTexts(names, i), names[..i], reported, d, after, GlobalText(names[i]), names[i]);
    assert names[..i + 1] == names[..i] + [names[i]];
  }

  lemma GlobalAdded(text: string, wholes: seq<string>, names: seq<string>, reported: seq<DeclarationSpans>,
                    d: DeclarationSpans, after: string, whole: string, name: string)
    requires Reported(text, wholes, names, reported, 0) && after == text + whole && Declares(after, d, whole, name)
    requires |text| <= d.range.start.byte
    ensures Reported(after + "\n", wholes + [whole], names + [name], reported + [d], 0)
  {
    ReportedStays(text, wholes, names, reported, 0, whole);
    ReportedMore(text, wholes, names, reported, 0, after, d, whole, name);
    ReportedStays(after, wholes + [whole], names + [name], reported + [d], 0, "\n");
  }

  /* Where members come to stand. */

  lemma {:induction false} LinesConcat(a: string, b: string)
    ensures Newlines(a + b) == Newlines(a) + Newlines(b)
    ensures AfterLastNewline(a + b) == if Newlines(b) > 0 then |a| + AfterLastNewline(b) else AfterLastNewline(a)
  {
    if b == "" {
      assert a + b == a;
    } else {
      assert (a + b)[..|a + b| - 1] == a + b[..|b| - 1];
      LinesConcat(a, b[..|b| - 1]);
    }
  }

  predicate OneLine(m: Member) {
    Newlines(m.name) == 0 && Newlines(m.detail) == 0
  }

  lemma {:induction false} NoNewlines(s: string)
    requires forall i :: 0 <= i < |s| ==> s[i] != '\n'
    ensures Newlines(s) == 0
  {
    if s != "" {
      NoNewlines(s[..|s| - 1]);
    }
  }

  lemma {:induction false} MemberIsOneLine(m: Member)
    requires OneLine(m)
    ensures Newlines(MemberText(m)) == 0
  {
    NoNewlines(MemberFront(m));
    NoNewlines(" : ");
    NoNewlines(";");
    NoNewlines("(...);");
    NoNewlines(" = ");
    LinesConcat(" : ", m.detail);
    LinesConcat(" : " + m.detail, ";");
    LinesConcat(" = ", m.detail);
    LinesConcat(MemberFront(m), m.name);
    LinesConcat(MemberFront(m) + m.name, MemberBack(m));
  }

  lemma {:induction false} IndentBreaks()
    ensures Newlines("\n    ") == 1 && AfterLastNewline("\n    ") == 1
  {
    NoNewlines("    ");
    assert "\n"[..0] == "";
    assert "\n" + "    " == "\n    ";
    LinesConcat("\n", "    ");
  }

  lemma {:induction false} SeparatorBreaks(m: Member, index: nat)
    ensures Newlines(Separator(m, index)) == 1
    ensures |Separator(m, index)| - AfterLastNewline(Separator(m, index)) == 4
  {
    var comma := if m.record.EnumOption? && index > 0 then "," else "";
    NoNewlines(comma);
    IndentBreaks();
    LinesConcat(comma, "\n    ");
  }

  lemma {:induction false} MembersHaveLines(members: seq<Member>, n: nat)
    requires n <= |members| && forall k :: 0 <= k < n ==> OneLine(members[k])
    ensures Newlines(MembersText(members, n)) == n
  {
    if n > 0 {
      var front, separator := MembersText(members, n - 1), Separator(members[n - 1], n - 1);
      MembersHaveLines(members, n - 1);
      SeparatorBreaks(members[n - 1], n - 1);
      MemberIsOneLine(members[n - 1]);
      LinesConcat(front, separator);
      LinesConcat(front + separator, MemberText(members[n - 1]));
    }
  }

  /** In a type whose header and members have no newline of their own, member `i` starts on line `i + 1`, column 4. */
  lemma MemberStandsOnItsLine(h: TypeHeader, members: seq<Member>, i: nat)
    requires i < |members| && forall k :: 0 <= k < i ==> OneLine(members[k])
    requires Newlines(Opening(h)) == 0
    ensures |Opening(h)| + MemberOffset(members, i) <= |TypeText(h, members)|
    ensures MarkAt(TypeText(h, members), |Opening(h)| + MemberOffset(members, i)) == Mark(|Opening(h)| + MemberOffset(members, i), i + 1, 4)
  {
    BeforeMember(Opening(h), members, i);
    MemberInText(h, members, i);
  }

  lemma BeforeMember(opening: string, members: seq<Member>, i: nat)
    requires i < |members| && forall k :: 0 <= k < i ==> OneLine(members[k])
    requires Newlines(opening) == 0
    ensures var prefix := opening + MembersText(members, i) + Separator(members[i], i);
      && |prefix| == |opening| + MemberOffset(members, i)
      && Newlines(prefix) == i + 1 && |prefix| - AfterLastNewline(prefix) == 4
  {
    MembersHaveLines(members, i);
    SeparatorBreaks(members[i], i);
    LinesConcat(opening, MembersText(members, i));
    LinesConcat(opening + MembersText(members, i), Separator(members[i], i));
  }

  lemma MemberInText(h: TypeHeader, members: seq<Member>, i: nat)
    requires i < |members|
    ensures var prefix := Opening(h) + MembersText(members, i) + Separator(members[i], i);
      |prefix| <= |TypeText(h, members)| && TypeText(h, members)[..|prefix|] == prefix
  {
    var prefix, all := Opening(h) + MembersText(members, i) + Separator(members[i], i), MembersText(members, |members|);
    var rest := MembersTextGrows(members, i + 1, |members|);
    MemberAppended(Opening(h), members, i);
    Assoc(Opening(h), MembersText(members, i + 1), rest);
    PrefixOf(prefix, MemberText(members[i]), rest, Closing(members != []));
  }

  lemma PrefixOf(prefix: string, a: string, b: string, c: string)
    ensures (prefix + a + b + c)[..|prefix|] == prefix
  {
  }

  lemma {:induction false} MembersTextGrows(members: seq<Member>, i: nat, n: nat) returns (rest: string)
    requires i <= n <= |members|
    ensures MembersText(members, n) == MembersText(members, i) + rest
    decreases n
  {
    if i < n {
      var r := MembersTextGrows(members, i, n - 1);
      rest := r + Separator(members[n - 1], n - 1) + MemberText(members[n - 1]);
      Assoc4(MembersText(members, i), r, Separator(members[n - 1], n - 1), MemberText(members[n - 1]));
    } else {
      rest := "";
    }
  }

  lemma Assoc4(a: string, b: string, c: string, d: string)
    ensures a + b + c + d == a + (b + c + d)
  {
  }
}
