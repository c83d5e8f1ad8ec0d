/** What the rendered built-ins say (src/builtins/native_layout.rs): the text of a header or a member reads back, word by word,
    as the declaration it was made from. */
module LayoutReading {
  import opened Wrappers
  import opened NativeLayout

  /* Words. */

  predicate Lacks(s: string, c: char) {
    forall i :: 0 <= i < |s| ==> s[i] != c
  }

  /** The text up to the first `c`, and the text after it. */
  function Until(s: string, c: char): string {
    if s == "" || s[0] == c then "" else [s[0]] + Until(s[1..], c)
  }

  function Past(s: string, c: char): string {
    if s == "" then "" else if s[0] == c then s[1..] else Past(s[1..], c)
  }

  lemma {:induction false} Parts(a: string, c: char, b: string)
    requires Lacks(a, c)
    ensures Until(a + [c] + b, c) == a && Past(a + [c] + b, c) == b
  {
    var s := a + [c] + b;
    if a == "" {
      assert s == [c] + b;
    } else {
      assert s[0] == a[0] && s[1..] == a[1..] + [c] + b;
      Parts(a[1..], c, b);
      assert [a[0]] + a[1..] == a;
    }
  }

  /* Headers. */

  function ReadRecord(word: string): Option<TypeRecord> {
    if word == "class" then Some(Class) else if word == "struct" then Some(Struct) else if word == "enum" then Some(Enum) else None
  }

  function ReadHeader(s: string): Option<TypeHeader> {
    if Until(s, ' ') == "abstract" then ReadType(Past(s, ' '), true) else ReadType(s, false)
  }

  function ReadType(s: string, isAbstract: bool): Option<TypeHeader> {
    match ReadRecord(Until(s, ' '))
    case None => None
    case Some(record) =>
      var named := Past(s, ' ');
      var after := Past(named, ' ');
      Some(TypeHeader(record, Until(named, ' '), if Until(after, ' ') == "extends" then Some(Until(Past(after, ' '), ' ')) else None, isAbstract))
  }

  /** Native types are rendered as classes. */
  function AsRead(h: TypeHeader): TypeHeader {
    if h.record.Native? then h.(record := Class) else h
  }

  lemma {:induction false} KeywordReads(record: TypeRecord, rest: string)
    ensures var s := Keyword(record) + rest;
      && ReadRecord(Until(s, ' ')) == Some(if record.Native? then Class else record) && Past(s, ' ') == rest
      && Until(s, ' ') != "abstract"
  {
    var word := match record case Struct => "struct" case Enum => "enum" case _ => "class";
    assert Keyword(record) == word + [' '];
    Parts(word, ' ', rest);
  }

  lemma {:induction false} BackReads(name: string, base: Option<string>, back: string)
    requires Lacks(name, ' ') && (base.Some? ==> Lacks(base.value, ' '))
    requires back == (match base case Some(b) => " extends " + b case None => "") + " {"
    ensures var s := name + back; var after := Past(s, ' ');
      Until(s, ' ') == name && (Until(after, ' ') == "extends" <==> base.Some?)
      && (base.Some? ==> Until(Past(after, ' '), ' ') == base.value)
  {
    match base
    case None =>
      assert name + back == name + [' '] + "{";
      Parts(name, ' ', "{");
      assert Until("{", ' ') == "{" by { assert "{"[1..] == ""; }
    case Some(b) =>
      var tail := b + [' '] + "{";
      assert name + back == name + [' '] + ("extends" + [' '] + tail);
      Parts(name, ' ', "extends" + [' '] + tail);
      Parts("extends", ' ', tail);
      Parts(b, ' ', "{");
  }

  /** The header of a type says whether it is abstract, what kind of type it is, its name and its base. */
  lemma {:induction false} HeaderReadsBack(h: TypeHeader)
    requires Lacks(h.name, ' ') && (h.base.Some? ==> Lacks(h.base.value, ' '))
    ensures ReadHeader(Opening(h)) == Some(AsRead(h))
  {
    var plain := Keyword(h.record) + (h.name + HeaderBack(h));
    KeywordReads(h.record, h.name + HeaderBack(h));
    BackReads(h.name, h.base, HeaderBack(h));
    if h.isAbstract {
      AbstractFirst(Keyword(h.record), h.name, HeaderBack(h), plain);
      Parts("abstract", ' ', plain);
    } else {
      PlainFirst(Keyword(h.record), h.name, HeaderBack(h), plain);
    }
  }

  lemma AbstractFirst(word: string, name: string, back: string, plain: string)
    requires plain == word + (name + back)
    ensures "abstract " + word + name + back == "abstract" + [' '] + plain
  {
  }

  lemma PlainFirst(word: string, name: string, back: string, plain: string)
    requires plain == word + (name + back)
    ensures "" + word + name + back == plain
  {
  }

  /* Members. */

  function ReadMember(s: string): Option<Member> {
    if Until(s, ' ') != "import" then
      (if Until(Past(s, ' '), ' ') == "=" then Some(Member(EnumOption, Until(s, ' '), Past(Past(s, ' '), ' '))) else None)
    else
      var what, after := Until(Past(s, ' '), ' '), Past(Past(s, ' '), ' ');
      if what == "function" then Some(Member(Method, Until(after, '('), ""))
      else if what == "var" && Until(Past(after, ' '), ' ') == ":" then
        Some(Member(Field, Until(after, ' '), Until(Past(Past(after, ' '), ' '), ';')))
      else None
  }

  /** A member's text says what kind of member it is, its name, and for a field its type, for an option its value. */
  lemma {:induction false} MemberReadsBack(m: Member)
    requires Lacks(m.name, ' ') && Lacks(m.name, '(') && Lacks(m.detail, ';') && (m.record.EnumOption? ==> m.name != "import")
    ensures ReadMember(MemberText(m)) == Some(if m.record.Method? then m.(detail := "") else m)
  {
    match m.record
    case Field => FieldReads(m);
    case Method => MethodReads(m);
    case EnumOption => OptionReads(m);
  }

  lemma {:induction false} FieldReads(m: Member)
    requires m.record.Field? && Lacks(m.name, ' ') && Lacks(m.detail, ';')
    ensures ReadMember(MemberText(m)) == Some(m)
  {
    var typed := m.detail + [';'] + "";
    var tail := m.name + [' '] + (":" + [' '] + typed);
    assert MemberText(m) == "import" + [' '] + ("var" + [' '] + tail);
    Parts("import", ' ', "var" + [' '] + tail);
    Parts("var", ' ', tail);
    Parts(m.name, ' ', ":" + [' '] + typed);
    Parts(":", ' ', typed);
    Parts(m.detail, ';', "");
  }

  lemma {:induction false} MethodReads(m: Member)
    requires m.record.Method? && Lacks(m.name, '(')
    ensures ReadMember(MemberText(m)) == Some(m.(detail := ""))
  {
    var tail := m.name + ['('] + "...);";
    assert MemberText(m) == "import" + [' '] + ("function" + [' '] + tail);
    Parts("import", ' ', "function" + [' '] + tail);
    Parts("function", ' ', tail);
    Parts(m.name, '(', "...);");
  }

  lemma {:induction false} OptionReads(m: Member)
    requires m.record.EnumOption? && Lacks(m.name, ' ') && m.name != "import"
    ensures ReadMember(MemberText(m)) == Some(m)
  {
    var tail := "=" + [' '] + m.detail;
    assert MemberText(m) == m.name + [' '] + tail;
    Parts(m.name, ' ', tail);
    Parts("=", ' ', m.detail);
  }

  /** A global function reads like a method. */
  lemma {:induction false} GlobalReadsBack(name: string)
    requires Lacks(name, '(')
    ensures ReadMember(GlobalText(name)) == Some(Member(Method, name, ""))
  {
    var m := Member(Method, name, "");
    assert GlobalText(name) == MemberText(m);
    MethodReads(m);
  }

  /** Options are separated by commas, and nothing else is. */
  lemma CommasSeparateOptions(m: Member, index: nat)
    ensures Until(Separator(m, index), '\n') == if m.record.EnumOption? && index > 0 then "," else ""
  {
    var comma := if m.record.EnumOption? && index > 0 then "," else "";
    assert Separator(m, index) == comma + ['\n'] + "    ";
    Parts(comma, '\n', "    ");
  }

  /** The type ends with its brace, which has a line of its own if there are members. */
  lemma {:induction false} BraceCloses(h: TypeHeader, members: seq<Member>)
    ensures var s := TypeText(h, members);
      |s| >= 3 && s[|s| - 2..] == "}\n" && s[|s| - 3] == if members == [] then '{' else '\n'
  {
    var front, closing := Opening(h) + MembersText(members, |members|), Closing(members != []);
    assert TypeText(h, members) == front + closing;
    if members == [] {
      assert front == Opening(h);
      OpeningEnds(h);
    }
  }

  lemma OpeningEnds(h: TypeHeader)
    ensures Opening(h) != "" && Opening(h)[|Opening(h)| - 1] == '{'
  {
    var back := HeaderBack(h);
    assert back[|back| - 1] == '{';
  }
}
