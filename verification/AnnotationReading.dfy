/** What every annotation reads as (`from_annotation` and `parse_generic_type` in src/types/parse.rs), told from how it is
    written. */
module AnnotationReading {
  import opened Wrappers
  import opened Types

  predicate Spaces(s: string) {
    forall i :: 0 <= i < |s| ==> IsSpace(s[i])
  }

  predicate NoBracket(s: string) {
    forall i :: 0 <= i < |s| ==> s[i] != '<'
  }

  lemma {:induction false} TrimStartOf(front: string, s: string)
    requires Spaces(front) && (s == "" || !IsSpace(s[0]))
    ensures TrimStart(front + s) == s
  {
    if front == "" {
      assert front + s == s;
    } else {
      assert (front + s)[1..] == front[1..] + s;
      TrimStartOf(front[1..], s);
    }
  }

  lemma {:induction false} TrimEndOf(s: string, back: string)
    requires Spaces(back) && (s == "" || !IsSpace(s[|s| - 1]))
    ensures TrimEnd(s + back) == s
  {
    if back == "" {
      assert s + back == s;
    } else {
      assert (s + back)[..|s + back| - 1] == s + back[..|back| - 1];
      TrimEndOf(s, back[..|back| - 1]);
    }
  }

  /** Trimming takes the spaces off both ends, and no more. */
  lemma TrimOf(front: string, s: string, back: string)
    requires Spaces(front) && Spaces(back) && Trimmed(s)
    ensures Trim(front + s + back) == s
  {
    if s == "" {
      assert front + s + back == (front + back) + "";
      TrimStartOf(front + back, "");
    } else {
      assert front + s + back == front + (s + back);
      TrimStartOf(front, s + back);
    }
    TrimEndOf(s, if s == "" then "" else back);
  }

  /** Spaces around an annotation do not matter. */
  lemma SpacesAround(front: string, s: string, back: string)
    requires Spaces(front) && Spaces(back) && Trimmed(s)
    ensures FromAnnotation(front + s + back) == FromAnnotation(s)
  {
    TrimOf(front, s, back);
    TrimIsEnough(front + s + back);
  }

  /** Without an opening bracket, or with something behind the last closing one, it is a word. */
  lemma ReadsAsWord(s: string)
    requires s != "" && Trimmed(s) && (NoBracket(s) || s[|s| - 1] != '>')
    ensures FromAnnotation(s) == if s == "void" then Void else match Alias(s) case Some(p) => Primitive(p) case None => Named(s)
  {
    TrimTrims(s);
  }

  lemma NothingReadsAsUnknown(s: string)
    requires Spaces(s)
    ensures FromAnnotation(s) == Unknown
  {
    TrimOf(s, "", "");
    assert s + "" + "" == s;
  }

  /** From the first opening bracket to a closing one at the end, what stands before and between counts without the spaces
      around it; the right number of arguments makes it an array or a map, and anything else stays one name. */
  lemma {:induction false} ReadsAsGeneric(ctor: string, gap: string, x: string)
    requires Trimmed(ctor) && Spaces(gap) && NoBracket(ctor) && NoBracket(gap)
    requires ctor == "" ==> gap == ""
    ensures var s, parts := ctor + gap + "<" + x + ">", Parts(x);
      FromAnnotation(s)
         == if !Spaces(x) && ctor == "array" && |parts| == 1 then Array(FromAnnotation(parts[0]))
            else if !Spaces(x) && ctor == "map" && |parts| == 2 then Map(FromAnnotation(parts[0]), FromAnnotation(parts[1]))
            else Named(s)
  {
    var s := ctor + gap + "<" + x + ">";
    Bracketed(ctor, gap, x, s);
    MarkIsNoAlias(s, |s| - 1);
    ReadBrackets(s, ParseGeneric(s));
    PartsOfTrim(x);
  }

  lemma {:induction false} Bracketed(ctor: string, gap: string, x: string, s: string)
    requires Trimmed(ctor) && Spaces(gap) && NoBracket(ctor) && NoBracket(gap) && (ctor == "" ==> gap == "")
    requires s == ctor + gap + "<" + x + ">"
    ensures Trim(s) == s && s != "" && s[|s| - 1] == '>'
    ensures ParseGeneric(s) == if ctor == "" || Spaces(x) then None else Some(Generic(ctor, Trim(x)))
  {
    var front := ctor + gap;
    FirstBracket(front, x, s);
    assert ctor != "" ==> front[0] == ctor[0];
    TrimTrims(s);
    TrimOf("", ctor, gap);
    assert "" + ctor + gap == front;
    BlankIff(x);
    CutGeneric(s, |front|, front, x);
  }

  lemma {:induction false} FirstBracket(front: string, x: string, s: string)
    requires NoBracket(front) && s == front + "<" + x + ">"
    ensures |s| == |front| + |x| + 2 && Find(s, '<') == |front| && s[|s| - 1] == '>'
    ensures s[0] == if front == "" then '<' else front[0]
    ensures s[..|front|] == front && s[|front| + 1..|s| - 1] == x
  {
    assert s[|front|] == '<';
    assert forall j :: 0 <= j < |front| ==> s[j] == front[j];
  }

  lemma {:induction false} CutGeneric(s: string, lt: nat, front: string, x: string)
    requires Trim(s) == s && lt < |s| - 1 && Find(s, '<') == lt && s[|s| - 1] == '>'
    requires s[..lt] == front && s[lt + 1..|s| - 1] == x
    ensures ParseGeneric(s) == if Trim(front) == "" || Trim(x) == "" then None else Some(Generic(Trim(front), Trim(x)))
  {
  }

  lemma BlankIff(x: string)
    ensures Trim(x) == "" <==> Spaces(x)
  {
    if Spaces(x) {
      TrimOf(x, "", "");
      assert x + "" + "" == x;
    } else {
      var i :| 0 <= i < |x| && !IsSpace(x[i]);
      StartStays(x, i);
    }
  }

  lemma {:induction false} StartStays(x: string, i: nat)
    requires i < |x| && !IsSpace(x[i])
    ensures Trim(x) != ""
  {
    if IsSpace(x[0]) {
      StartStays(x[1..], i - 1);
    } else {
      TrimEndKeepsFirst(x);
    }
  }

  /** What stands for no known type is printed as a word that reads as a name. */
  lemma {:induction false} MarkersReadAsNames(t: Type, shown: string)
    requires (t == Null && shown == "NULL") || (t == Unknown && shown == "?")
    ensures FromAnnotation(Show(t)) == Named(shown)
  {
    NoAlias(shown);
    ReadsAsWord(shown);
  }

  lemma {:induction false} NoAlias(s: string)
    requires s != "" && (s[0] == 'N' || s[0] == '?')
    ensures Alias(s).None? && s != "void"
  {
  }

  /* Which types are sure to be read back. */

  /** Known, and its names are words that are neither primitives nor void. */
  predicate PlainlyNamed(t: Type) {
    match t
    case Named(n) => n != "" && Trimmed(n) && Plain(n) && n != "void" && Alias(n).None?
    case Array(e) => PlainlyNamed(e)
    case Map(k, v) => PlainlyNamed(k) && PlainlyNamed(v)
    case Null => false
    case Unknown => false
    case _ => true
  }

  /** A type of plain names is read back as printed, however deeply it is nested. */
  lemma {:induction false} PlainNamesReadBack(t: Type)
    requires PlainlyNamed(t)
    ensures FromAnnotation(Show(t)) == t
  {
    PlainIsReadable(t);
    RoundTripIff(t);
  }

  lemma {:induction false} PlainIsReadable(t: Type)
    requires PlainlyNamed(t)
    ensures Readable(t)
  {
    match t
    case Named(n) =>
      TrimTrims(n);
      assert Find(n, '<') == |n|;
    case Array(e) =>
      PlainIsReadable(e);
      Balanced(e, 0);
    case Map(k, v) =>
      PlainIsReadable(k);
      PlainIsReadable(v);
      Balanced(k, 0);
      Balanced(v, 0);
    case _ =>
  }

  /** Its brackets close, and it has no comma outside them. */
  lemma {:induction false} Balanced(t: Type, depth: nat)
    requires PlainlyNamed(t)
    ensures Depth(Show(t), depth) == depth && Commas(Show(t), depth) == 0
  {
    match t
    case Named(n) => PlainScans(n);
    case Primitive(p) =>
      CanonicalIsPlain(p);
      PlainScans(Canonical(p));
    case Void =>
      PlainScans("void");
    case Array(e) =>
      Balanced(e, depth + 1);
      BracketsBalance("array", Show(e), depth);
      assert Show(t) == "array" + "<" + Show(e) + ">";
    case Map(k, v) =>
      Balanced(k, depth + 1);
      Balanced(v, depth + 1);
      CommaBalances(Show(k), Show(v), depth + 1);
      BracketsBalance("map", Show(k) + ", " + Show(v), depth);
      MapText(Show(k), Show(v));
  }

  lemma {:induction false} BracketsBalance(ctor: string, x: string, depth: nat)
    requires Plain(ctor) && Depth(x, depth + 1) == depth + 1 && Commas(x, depth + 1) == 0
    ensures var s := ctor + "<" + x + ">"; Depth(s, depth) == depth && Commas(s, depth) == 0
  {
    PlainScans(ctor);
    ScanConcat(ctor, "<", depth);
    ScanConcat(ctor + "<", x, depth);
    ScanConcat(ctor + "<" + x, ">", depth);
    OneChar('<', depth);
    OneChar('>', depth + 1);
  }

  lemma {:induction false} CommaBalances(x: string, y: string, depth: nat)
    requires depth > 0 && Depth(x, depth) == depth == Depth(y, depth) && Commas(x, depth) == 0 == Commas(y, depth)
    ensures Depth(x + ", " + y, depth) == depth && Commas(x + ", " + y, depth) == 0
  {
    ScanConcat(x, ", ", depth);
    ScanConcat(x + ", ", y, depth);
    ScanConcat([','], [' '], depth);
    OneChar(',', depth);
    OneChar(' ', depth);
    assert [','] + [' '] == ", ";
  }

  lemma {:induction false} OneChar(c: char, depth: nat)
    ensures Depth([c], depth) == Nest(depth, c) && Commas([c], depth) == if c == ',' && depth == 0 then 1 else 0
  {
    assert [c][1..] == "";
  }
}
