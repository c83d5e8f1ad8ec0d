/** Type annotations (src/types/mod.rs, src/types/parse.rs): the parser, the printer, and when each undoes the other. */
module Types {
  import opened Wrappers

  datatype Primitive =
    Bool | Byte | Int | Int16 | Int8 | Uint16 | Uint32 | Uint64 | Float | Name | String | StringAnsi

  datatype Type =
    | Void
    | Primitive(primitive: Primitive)
    | Named(name: string)
    | Array(element: Type)
    | Map(key: Type, value: Type)
    | Null      // the type of the NULL literal
    | Unknown   // not confidently known

  function Canonical(p: Primitive): string {
    match p
    case Bool => "bool" case Byte => "byte" case Int => "int" case Int16 => "Int16" case Int8 => "Int8"
    case Uint16 => "Uint16" case Uint32 => "Uint32" case Uint64 => "Uint64" case Float => "float" case Name => "name"
    case String => "string" case StringAnsi => "StringAnsi"
  }

  /** The table of primitive spellings. */
  function Alias(s: string): Option<Primitive> {
    if s == "bool" || s == "Bool" then Some(Bool)
    else if s == "byte" || s == "Uint8" then Some(Byte)
    else if s == "int" || s == "Int32" then Some(Int)
    else if s == "Int16" then Some(Int16)
    else if s == "Int8" then Some(Int8)
    else if s == "Uint16" then Some(Uint16)
    else if s == "Uint32" then Some(Uint32)
    else if s == "Uint64" then Some(Uint64)
    else if s == "float" || s == "Float" then Some(Float)
    else if s == "name" || s == "CName" then Some(Name)
    else if s == "string" || s == "String" then Some(String)
    else if s == "StringAnsi" then Some(StringAnsi)
    else None
  }

  /* Trimming. */

  /** Unicode White_Space. */
  predicate IsSpace(c: char) {
    || '\t' <= c <= '\r' || c == ' ' || c == '\U{85}' || c == '\U{A0}' || c == '\U{1680}' || '\U{2000}' <= c <= '\U{200A}'
    || c == '\U{2028}' || c == '\U{2029}' || c == '\U{202F}' || c == '\U{205F}' || c == '\U{3000}'
  }

  /** The code points with the property. */
  const SPACES: set<char> := {
    '\t', '\n', '\U{0B}', '\U{0C}', '\r', ' ', '\U{85}', '\U{A0}', '\U{1680}', '\U{2000}', '\U{2001}', '\U{2002}', '\U{2003}',
    '\U{2004}', '\U{2005}', '\U{2006}', '\U{2007}', '\U{2008}', '\U{2009}', '\U{200A}', '\U{2028}', '\U{2029}', '\U{202F}',
    '\U{205F}', '\U{3000}'}

  lemma {:induction false} SpacesAre(c: char)
    ensures IsSpace(c) <==> c in SPACES
  {
  }

  function TrimStart(s: string): (r: string)
    ensures |r| <= |s|
  {
    if s != "" && IsSpace(s[0]) then TrimStart(s[1..]) else s
  }

  function TrimEnd(s: string): (r: string)
    ensures |r| <= |s|
  {
    if s != "" && IsSpace(s[|s| - 1]) then TrimEnd(s[..|s| - 1]) else s
  }

  function Trim(s: string): (r: string)
    ensures |r| <= |s|
  {
    TrimEnd(TrimStart(s))
  }

  predicate Trimmed(s: string) {
    s == "" || (!IsSpace(s[0]) && !IsSpace(s[|s| - 1]))
  }

  lemma {:induction false} TrimEndKeepsFirst(s: string)
    requires s != "" && !IsSpace(s[0])
    ensures TrimEnd(s) != "" && TrimEnd(s)[0] == s[0] && Trimmed(TrimEnd(s))
  {
    if IsSpace(s[|s| - 1]) {
      TrimEndKeepsFirst(s[..|s| - 1]);
    }
  }

  lemma {:induction false} TrimStartStops(s: string)
    ensures TrimStart(s) == "" || !IsSpace(TrimStart(s)[0])
  {
    if s != "" && IsSpace(s[0]) {
      TrimStartStops(s[1..]);
    }
  }

  lemma TrimTrims(s: string)
    ensures Trimmed(Trim(s)) && (Trimmed(s) ==> Trim(s) == s) && Trim(Trim(s)) == Trim(s)
  {
    TrimStartStops(s);
    if TrimStart(s) != "" {
      TrimEndKeepsFirst(TrimStart(s));
    }
  }

  /* The nesting depth, and the commas outside any brackets. */

  /** The depth never goes below zero: a stray closing bracket is ignored. */
  function Nest(depth: nat, c: char): nat {
    if c == '<' then depth + 1 else if c == '>' && depth > 0 then depth - 1 else depth
  }

  function Depth(s: string, depth: nat): nat {
    if s == "" then depth else Depth(s[1..], Nest(depth, s[0]))
  }

  function Commas(s: string, depth: nat): nat {
    if s == "" then 0
    else (if s[0] == ',' && depth == 0 then 1 else 0) + Commas(s[1..], Nest(depth, s[0]))
  }

  /** `a` and `b` look the same to a scan that starts at any depth. */
  ghost predicate ScansAlike(a: string, b: string) {
    forall k: nat :: Depth(a, k) == Depth(b, k) && Commas(a, k) == Commas(b, k)
  }

  lemma {:induction false} ScanConcat(a: string, b: string, k: nat)
    ensures Depth(a + b, k) == Depth(b, Depth(a, k))
    ensures Commas(a + b, k) == Commas(a, k) + Commas(b, Depth(a, k))
  {
    if a == "" {
      assert a + b == b;
    } else {
      assert (a + b)[1..] == a[1..] + b;
      ScanConcat(a[1..], b, Nest(k, a[0]));
    }
  }

  lemma AlikeConcat(a: string, b: string, c: string, d: string)
    requires ScansAlike(a, b) && ScansAlike(c, d)
    ensures ScansAlike(a + c, b + d)
  {
    forall k: nat
      ensures Depth(a + c, k) == Depth(b + d, k) && Commas(a + c, k) == Commas(b + d, k)
    {
      ScanConcat(a, c, k);
      ScanConcat(b, d, k);
    }
  }

  lemma {:induction false} TrimStartAlike(s: string)
    ensures ScansAlike(TrimStart(s), s)
  {
    if s != "" && IsSpace(s[0]) {
      TrimStartAlike(s[1..]);
    }
  }

  lemma {:induction false} TrimEndAlike(s: string)
    ensures ScansAlike(TrimEnd(s), s)
  {
    if s != "" && IsSpace(s[|s| - 1]) {
      var init, last := s[..|s| - 1], s[|s| - 1..];
      TrimEndAlike(init);
      forall k: nat
        ensures Depth(init, k) == Depth(s, k) && Commas(init, k) == Commas(s, k)
      {
        assert s == init + last;
        assert last[1..] == "";
        ScanConcat(init, last, k);
      }
    }
  }

  lemma TrimAlike(s: string)
    ensures ScansAlike(Trim(s), s)
  {
    TrimStartAlike(s);
    TrimEndAlike(TrimStart(s));
  }

  /** No bracket and no comma. */
  predicate Plain(s: string) {
    forall i :: 0 <= i < |s| ==> s[i] != '<' && s[i] != '>' && s[i] != ','
  }

  lemma {:induction false} PlainScans(s: string)
    requires Plain(s)
    ensures forall k: nat :: Depth(s, k) == k && Commas(s, k) == 0
  {
    if s != "" {
      PlainScans(s[1..]);
    }
  }

  /* Splitting at the commas. */

  function FirstComma(s: string, depth: nat): (i: nat)
    ensures i <= |s|
  {
    if s == "" || (s[0] == ',' && depth == 0) then 0 else 1 + FirstComma(s[1..], Nest(depth, s[0]))
  }

  /** The arguments: the text between the commas outside any brackets, trimmed. */
  function Parts(args: string): (parts: seq<string>)
    ensures |parts| > 0 && forall p :: p in parts ==> |p| <= |args|
    decreases |args|
  {
    var i := FirstComma(args, 0);
    if i == |args| then [Trim(args)] else [Trim(args[..i])] + Parts(args[i + 1..])
  }

  lemma {:induction false} FirstCommaIs(s: string, k: nat)
    ensures var i := FirstComma(s, k);
      && Commas(s[..i], k) == 0
      && (i < |s| ==> s[i] == ',' && Depth(s[..i], k) == 0)
      && Commas(s, k) == if i == |s| then 0 else 1 + Commas(s[i + 1..], 0)
  {
    var i := FirstComma(s, k);
    if i == 0 {
    } else {
      FirstCommaIs(s[1..], Nest(k, s[0]));
      assert s[..i][1..] == s[1..][..i - 1];
      assert i < |s| ==> s[i + 1..] == s[1..][i..];
    }
  }

  /** A comma outside any brackets, before which there is none, is the first. */
  lemma {:induction false} FirstCommaAt(a: string, b: string, k: nat)
    requires Commas(a, k) == 0 && Depth(a, k) == 0
    ensures FirstComma(a + "," + b, k) == |a|
  {
    if a != "" {
      assert (a + "," + b)[1..] == a[1..] + "," + b;
      FirstCommaAt(a[1..], b, Nest(k, a[0]));
    }
  }

  lemma {:induction false} PartsCount(args: string)
    ensures |Parts(args)| == Commas(args, 0) + 1
    decreases |args|
  {
    FirstCommaIs(args, 0);
    var i := FirstComma(args, 0);
    if i < |args| {
      PartsCount(args[i + 1..]);
    }
  }

  lemma OnePart(args: string)
    requires Commas(args, 0) == 0
    ensures Parts(args) == [Trim(args)]
  {
    FirstCommaIs(args, 0);
  }

  /** Two parts lie on the two sides of the one comma. */
  lemma {:induction false} PartsOfTwo(args: string) returns (a: string, b: string)
    requires |Parts(args)| == 2
    ensures args == a + "," + b && Parts(args) == [Trim(a), Trim(b)]
    ensures Commas(a, 0) == 0 && Depth(a, 0) == 0 && Commas(b, 0) == 0
  {
    PartsCount(args);
    FirstCommaIs(args, 0);
    var i := FirstComma(args, 0);
    a, b := args[..i], args[i + 1..];
    PartsAt(args, i, a, b);
    OnePart(b);
  }

  lemma {:induction false} PartsAt(args: string, i: nat, a: string, b: string)
    requires i == FirstComma(args, 0) < |args| && args[i] == ',' && a == args[..i] && b == args[i + 1..]
    ensures args == a + "," + b && Parts(args) == [Trim(a)] + Parts(b)
  {
  }

  lemma ScanOne(s: string, c: char)
    ensures Depth(s + [c], 0) == Nest(Depth(s, 0), c)
    ensures Commas(s + [c], 0) == Commas(s, 0) + if c == ',' && Depth(s, 0) == 0 then 1 else 0
  {
    ScanConcat(s, [c], 0);
    assert [c][1..] == "";
  }

  lemma CutAt(a: string, b: string)
    requires Commas(a, 0) == 0 && Depth(a, 0) == 0
    ensures Parts(a + "," + b) == [Trim(a)] + Parts(b)
  {
    FirstCommaAt(a, b, 0);
    var s := a + "," + b;
    assert s[..|a|] == a && s[|a| + 1..] == b;
  }

  lemma {:induction false} TrimDropsLast(s: string, c: char)
    requires IsSpace(c)
    ensures Trim(s + [c]) == Trim(s)
  {
    if s == "" {
      assert (s + [c])[1..] == "";
    } else if IsSpace(s[0]) {
      assert (s + [c])[1..] == s[1..] + [c];
      TrimDropsLast(s[1..], c);
    } else {
      assert (s + [c])[..|s|] == s;
    }
  }

  lemma {:induction false} FirstCommaBefore(s: string, c: char, k: nat)
    requires c != ','
    ensures FirstComma(s + [c], k) == if FirstComma(s, k) == |s| then |s| + 1 else FirstComma(s, k)
  {
    if s == "" {
      assert (s + [c])[1..] == "";
    } else {
      assert (s + [c])[1..] == s[1..] + [c];
      FirstCommaBefore(s[1..], c, Nest(k, s[0]));
    }
  }

  lemma {:induction false} PartsDropLast(s: string, c: char)
    requires IsSpace(c)
    ensures Parts(s + [c]) == Parts(s)
    decreases |s|
  {
    FirstCommaBefore(s, c, 0);
    var i := FirstComma(s, 0);
    if i == |s| {
      TrimDropsLast(s, c);
    } else {
      FirstCommaIs(s, 0);
      var a, b := s[..i], s[i + 1..];
      assert s == a + "," + b && s + [c] == a + "," + (b + [c]);
      CutAt(a, b);
      CutAt(a, b + [c]);
      PartsDropLast(b, c);
    }
  }

  lemma PartsDropFirst(s: string)
    requires s != "" && IsSpace(s[0])
    ensures Parts(s) == Parts(s[1..])
  {
    var i := FirstComma(s, 0);
    if i < |s| {
      assert s[..i][1..] == s[1..][..i - 1] && s[i + 1..] == s[1..][i..];
    }
  }

  lemma {:induction false} PartsOfTrimStart(s: string)
    ensures Parts(TrimStart(s)) == Parts(s)
  {
    if s != "" && IsSpace(s[0]) {
      PartsDropFirst(s);
      PartsOfTrimStart(s[1..]);
    }
  }

  lemma {:induction false} PartsOfTrimEnd(s: string)
    ensures Parts(TrimEnd(s)) == Parts(s)
  {
    if s != "" && IsSpace(s[|s| - 1]) {
      assert s == s[..|s| - 1] + [s[|s| - 1]];
      PartsDropLast(s[..|s| - 1], s[|s| - 1]);
      PartsOfTrimEnd(s[..|s| - 1]);
    }
  }

  /** Spaces around the arguments make no difference. */
  lemma PartsOfTrim(s: string)
    ensures Parts(Trim(s)) == Parts(s)
  {
    PartsOfTrimStart(s);
    PartsOfTrimEnd(TrimStart(s));
  }

  /** The loop of `split_type_args` from a point inside a part: `current` is the part so far, at this depth, and `rest`
      the text still to scan. */
  function SplitFrom(current: string, depth: nat, rest: string): seq<string>
    decreases |rest|
  {
    if rest == "" then [Trim(current)]
    else if rest[0] == ',' && depth == 0 then [Trim(current)] + SplitFrom("", 0, rest[1..])
    else SplitFrom(current + [rest[0]], Nest(depth, rest[0]), rest[1..])
  }

  lemma {:induction false} SplitFromIsParts(current: string, depth: nat, rest: string)
    requires depth == Depth(current, 0) && Commas(current, 0) == 0
    ensures SplitFrom(current, depth, rest) == Parts(current + rest)
    decreases |rest|
  {
    if rest == "" {
      assert current + rest == current;
      OnePart(current);
    } else if rest[0] == ',' && depth == 0 {
      assert current + rest == current + "," + rest[1..];
      CutAt(current, rest[1..]);
      SplitFromIsParts("", 0, rest[1..]);
      assert "" + rest[1..] == rest[1..];
    } else {
      ScanOne(current, rest[0]);
      assert current + rest == current + [rest[0]] + rest[1..];
      SplitFromIsParts(current + [rest[0]], Nest(depth, rest[0]), rest[1..]);
    }
  }

  /** What the scan makes of the next character. */
  lemma {:induction false} CharAhead(args: string, start: nat, i: nat, depth: nat)
    requires start <= i < |args|
    ensures SplitFrom(args[start..i], depth, args[i..])
         == if args[i] == ',' && depth == 0 then [Trim(args[start..i])] + SplitFrom(args[i + 1..i + 1], 0, args[i + 1..])
            else SplitFrom(args[start..i + 1], Nest(depth, args[i]), args[i + 1..])
  {
    assert args[i..][1..] == args[i + 1..] && args[start..i] + [args[i]] == args[start..i + 1];
    assert args[i + 1..i + 1] == "";
  }

  /** `split_type_args`. */
  method SplitTypeArgs(args: string) returns (parts: seq<string>)
    ensures parts == Parts(args)
  {
    parts := [];
    var depth: nat, start, i := 0, 0, 0;
    while i < |args|
      invariant 0 <= start <= i <= |args|
      invariant parts + SplitFrom(args[start..i], depth, args[i..]) == SplitFrom("", 0, args)
    {
      var c := args[i];
      CharAhead(args, start, i, depth);
      if c == '<' {
        depth := depth + 1;
      } else if c == '>' {
        depth := if depth == 0 then 0 else depth - 1;
      } else if c == ',' && depth == 0 {
        parts := parts + [Trim(args[start..i])];
        start := i + 1;
      }
      i := i + 1;
    }
    assert args[start..i] == args[start..] && args[i..] == "";
    parts := parts + [Trim(args[start..])];
    SplitFromIsParts("", 0, args);
    assert "" + args == args;
  }

  /* The parser. */

  function Find(s: string, c: char): (i: nat)
    ensures i <= |s| && (i < |s| ==> s[i] == c) && forall j :: 0 <= j < i ==> s[j] != c
  {
    if s == "" || s[0] == c then 0 else 1 + Find(s[1..], c)
  }

  datatype Generic = Generic(ctor: string, args: string)

  /** `parse_generic_type`: everything from the first opening bracket to a closing one at the very end. */
  function ParseGeneric(s: string): (g: Option<Generic>)
    ensures g.Some? ==> g.value.ctor != "" && g.value.args != "" && |g.value.args| < |s|
  {
    var t := Trim(s);
    var lt := Find(t, '<');
    if lt == |t| || t[|t| - 1] != '>' then None
    else
      var ctor, args := Trim(t[..lt]), Trim(t[lt + 1..|t| - 1]);
      if ctor == "" || args == "" then None else Some(Generic(ctor, args))
  }

  function FromAnnotation(s: string): Type
    decreases |s|
  {
    var t := Trim(s);
    if t == "" then Unknown
    else if t == "void" then Void
    else match ParseGeneric(t)
      case Some(g) =>
        var parts := Parts(g.args);
        if g.ctor == "array" && |parts| == 1 then Array(FromAnnotation(parts[0]))
        else if g.ctor == "map" && |parts| == 2 then Map(FromAnnotation(parts[0]), FromAnnotation(parts[1]))
        else Simple(t)
      case None => Simple(t)
  }

  function Simple(t: string): Type {
    match Alias(t) case Some(p) => Primitive(p) case None => Named(t)
  }

  /* The printer. */

  /** `Display`. */
  function Show(t: Type): string {
    match t
    case Void => "void"
    case Primitive(p) => Canonical(p)
    case Named(n) => n
    case Array(e) => "array<" + Show(e) + ">"
    case Map(k, v) => "map<" + Show(k) + ", " + Show(v) + ">"
    case Null => "NULL"
    case Unknown => "?"
  }

  /** `to_db_string`. */
  function DbString(t: Type): Option<string> {
    match t
    case Void => Some("void")
    case Primitive(p) => Some(Canonical(p))
    case Named(n) => Some(n)
    case Array(e) => (match DbString(e) case Some(x) => Some("array<" + x + ">") case None => None)
    case Map(k, v) =>
      (match DbString(k)
       case Some(x) => (match DbString(v) case Some(y) => Some("map<" + x + ", " + y + ">") case None => None)
       case None => None)
    case _ => None
  }

  predicate Known(t: Type) {
    match t
    case Array(e) => Known(e)
    case Map(k, v) => Known(k) && Known(v)
    case Null => false
    case Unknown => false
    case _ => true
  }

  /** The lookup key exists exactly for the fully known types, and is then what is displayed. */
  lemma {:induction false} DbStringIsShow(t: Type)
    ensures DbString(t) == if Known(t) then Some(Show(t)) else None
  {
    match t
    case Array(e) => DbStringIsShow(e);
    case Map(k, v) =>
      DbStringIsShow(k);
      DbStringIsShow(v);
    case _ =>
  }

  /* What the parser makes of a generic annotation, whatever stands between the brackets. */

  lemma {:induction false} GenericOf(ctor: string, x: string)
    requires ctor != "" && Plain(ctor) && Trimmed(ctor)
    ensures Trimmed(ctor + "<" + x + ">")
    ensures ParseGeneric(ctor + "<" + x + ">") == if Trim(x) == "" then None else Some(Generic(ctor, Trim(x)))
  {
    var s := ctor + "<" + x + ">";
    assert s[0] == ctor[0] && s[|s| - 1] == '>';
    TrimTrims(s);
    assert s[|ctor|] == '<';
    assert Find(s, '<') == |ctor| by {
      assert forall j :: 0 <= j < |ctor| ==> s[j] == ctor[j];
    }
    assert s[..|ctor|] == ctor && s[|ctor| + 1..|s| - 1] == x;
    TrimTrims(ctor);
  }

  lemma ReadBrackets(s: string, generic: Option<Generic>)
    requires Trim(s) == s && s != "" && s != "void" && Alias(s).None? && ParseGeneric(s) == generic
    ensures FromAnnotation(s)
         == if generic.Some? && generic.value.ctor == "array" && |Parts(generic.value.args)| == 1
            then Array(FromAnnotation(Parts(generic.value.args)[0]))
            else if generic.Some? && generic.value.ctor == "map" && |Parts(generic.value.args)| == 2
            then Map(FromAnnotation(Parts(generic.value.args)[0]), FromAnnotation(Parts(generic.value.args)[1]))
            else Named(s)
  {
  }

  lemma {:induction false} FromBrackets(ctor: string, x: string)
    requires ctor == "array" || ctor == "map"
    ensures var s, parts := ctor + "<" + x + ">", Parts(Trim(x));
      FromAnnotation(s)
         == if Trim(x) != "" && ctor == "array" && |parts| == 1 then Array(FromAnnotation(parts[0]))
            else if Trim(x) != "" && ctor == "map" && |parts| == 2 then Map(FromAnnotation(parts[0]), FromAnnotation(parts[1]))
            else Named(s)
  {
    var s := ctor + "<" + x + ">";
    CtorIsPlain(ctor);
    GenericOf(ctor, x);
    BracketsAreNoAlias(ctor, x);
    TrimTrims(s);
    ReadBrackets(s, ParseGeneric(s));
  }

  lemma {:induction false} CtorIsPlain(ctor: string)
    requires ctor == "array" || ctor == "map"
    ensures ctor != "" && Plain(ctor) && Trimmed(ctor)
  {
  }

  lemma {:induction false} BracketsAreNoAlias(ctor: string, x: string)
    ensures var s := ctor + "<" + x + ">"; Alias(s) == None && s != "void" && s != ""
  {
    var s := ctor + "<" + x + ">";
    assert s[|ctor|] == '<';
    MarkIsNoAlias(s, |ctor|);
  }

  /** Only the right number of arguments makes it a generic type. */
  lemma FromGeneric(ctor: string, x: string)
    requires ctor == "array" || ctor == "map"
    ensures var s, parts := ctor + "<" + x + ">", Parts(x);
      FromAnnotation(s)
         == if Trim(x) != "" && ctor == "array" && |parts| == 1 then Array(FromAnnotation(parts[0]))
            else if Trim(x) != "" && ctor == "map" && |parts| == 2 then Map(FromAnnotation(parts[0]), FromAnnotation(parts[1]))
            else Named(s)
  {
    FromBrackets(ctor, x);
    PartsOfTrim(x);
  }

  lemma FromArray(x: string)
    ensures FromAnnotation("array<" + x + ">")
         == if Trim(x) != "" && Commas(x, 0) == 0 then Array(FromAnnotation(x)) else Named("array<" + x + ">")
  {
    assert "array<" + x + ">" == "array" + "<" + x + ">";
    FromGeneric("array", x);
    PartsCount(x);
    if Commas(x, 0) == 0 {
      OnePart(x);
      TrimIsEnough(x);
    }
  }

  lemma TrimIsEnough(s: string)
    ensures FromAnnotation(Trim(s)) == FromAnnotation(s)
  {
    TrimTrims(s);
  }

  lemma {:induction false} MarkIsNoAlias(s: string, i: nat)
    requires i < |s| && (s[i] == '<' || s[i] == '>' || s[i] == ',')
    ensures Alias(s) == None && s != "void"
  {
  }

  /* Printing what was parsed looks the same to a scan. */

  lemma {:induction false} AliasIsPlain(t: string)
    requires Alias(t).Some?
    ensures Plain(t)
  {
    forall i | 0 <= i < |t|
      ensures t[i] != '<' && t[i] != '>' && t[i] != ','
    {
      if t[i] == '<' || t[i] == '>' || t[i] == ',' {
        MarkIsNoAlias(t, i);
      }
    }
  }

  lemma {:induction false} CanonicalReads(p: Primitive)
    ensures Alias(Canonical(p)) == Some(p)
  {
  }

  lemma {:induction false} CanonicalIsTrimmed(p: Primitive)
    ensures Trimmed(Canonical(p)) && Canonical(p) != "" && Canonical(p) != "void"
  {
  }

  lemma {:induction false} CanonicalIsPlain(p: Primitive)
    ensures Plain(Canonical(p)) && Trimmed(Canonical(p)) && Canonical(p) != "" && Alias(Canonical(p)) == Some(p) && Canonical(p) != "void"
  {
    CanonicalReads(p);
    CanonicalIsTrimmed(p);
    AliasIsPlain(Canonical(p));
  }

  lemma TypesScan()
    ensures forall k: nat :: Depth("void", k) == k && Commas("void", k) == 0
    ensures forall k: nat :: Depth("?", k) == k && Commas("?", k) == 0
    ensures forall k: nat :: Depth("", k) == k && Commas("", k) == 0
  {
    PlainScans("void");
    PlainScans("?");
    PlainScans("");
  }

  /** Brackets around texts that scan alike, after constructors that scan alike. */
  lemma BracketsAlike(c: string, d: string, a: string, b: string)
    requires ScansAlike(c, d) && ScansAlike(a, b)
    ensures ScansAlike(c + "<" + a + ">", d + "<" + b + ">")
  {
    AlikeConcat(c, d, "<", "<");
    AlikeConcat(c + "<", d + "<", a, b);
    AlikeConcat(c + "<" + a, d + "<" + b, ">", ">");
  }

  /** A trimmed generic annotation, taken apart. */
  lemma GenericParts(t: string) returns (rawCtor: string, rawArgs: string)
    requires Trimmed(t) && ParseGeneric(t).Some?
    ensures t == rawCtor + "<" + rawArgs + ">"
    ensures ParseGeneric(t) == Some(Generic(Trim(rawCtor), Trim(rawArgs)))
  {
    TrimTrims(t);
    var lt := Find(t, '<');
    assert lt < |t| - 1;
    rawCtor, rawArgs := t[..lt], t[lt + 1..|t| - 1];
  }

  /** What is printed for an annotation has the brackets and commas of the annotation. */
  lemma {:induction false} ShowScansAlike(s: string)
    ensures ScansAlike(Show(FromAnnotation(s)), s)
    decreases |s|, 1
  {
    var t := Trim(s);
    TrimTrims(s);
    TrimAlike(s);
    TypesScan();
    if t != "" && t != "void" {
      if ReadsAsGeneric(t) {
        GenericScansAlike(s);
      } else if Alias(t).Some? {
        AliasIsPlain(t);
        PlainScans(t);
        CanonicalIsPlain(Alias(t).value);
        PlainScans(Canonical(Alias(t).value));
      }
    }
  }

  /** A generic annotation taken apart, and what is read for it. */
  lemma GenericReads(s: string) returns (rawCtor: string, rawArgs: string)
    requires Trim(s) != "void" && ReadsAsGeneric(Trim(s))
    ensures Trim(s) == rawCtor + "<" + rawArgs + ">"
    ensures forall p :: p in Parts(rawArgs) ==> |p| < |s|
    ensures (Trim(rawCtor) == "array" && |Parts(rawArgs)| == 1 && FromAnnotation(s) == Array(FromAnnotation(Parts(rawArgs)[0])))
      || (Trim(rawCtor) == "map" && |Parts(rawArgs)| == 2
          && FromAnnotation(s) == Map(FromAnnotation(Parts(rawArgs)[0]), FromAnnotation(Parts(rawArgs)[1])))
  {
    TrimTrims(s);
    rawCtor, rawArgs := GenericParts(Trim(s));
    PartsOfTrim(rawArgs);
  }

  lemma {:induction false} GenericScansAlike(s: string)
    requires Trim(s) != "void" && ReadsAsGeneric(Trim(s))
    ensures ScansAlike(Show(FromAnnotation(s)), Trim(s))
    decreases |s|, 0
  {
    var rawCtor, rawArgs := GenericReads(s);
    ShowScansAlike(Parts(rawArgs)[0]);
    if |Parts(rawArgs)| == 2 {
      ShowScansAlike(Parts(rawArgs)[1]);
    }
    GenericShown(FromAnnotation(s), rawCtor, rawArgs);
  }

  lemma GenericShown(t: Type, rawCtor: string, rawArgs: string)
    requires (t.Array? && Trim(rawCtor) == "array" && |Parts(rawArgs)| == 1 && ScansAlike(Show(t.element), Parts(rawArgs)[0]))
      || (t.Map? && Trim(rawCtor) == "map" && |Parts(rawArgs)| == 2
          && ScansAlike(Show(t.key), Parts(rawArgs)[0]) && ScansAlike(Show(t.value), Parts(rawArgs)[1]))
    ensures ScansAlike(Show(t), rawCtor + "<" + rawArgs + ">")
  {
    TrimAlike(rawCtor);
    if t.Array? {
      ArrayScans(rawCtor, rawArgs, Show(t.element));
    } else {
      MapScans(rawCtor, rawArgs, Show(t.key), Show(t.value));
    }
  }

  lemma ArrayScans(rawCtor: string, rawArgs: string, x: string)
    requires ScansAlike("array", rawCtor) && |Parts(rawArgs)| == 1 && ScansAlike(x, Parts(rawArgs)[0])
    ensures ScansAlike("array<" + x + ">", rawCtor + "<" + rawArgs + ">")
  {
    PartsCount(rawArgs);
    OnePart(rawArgs);
    TrimAlike(rawArgs);
    BracketsAlike("array", rawCtor, x, rawArgs);
    assert "array" + "<" + x + ">" == "array<" + x + ">";
  }

  lemma {:induction false} MapScans(rawCtor: string, rawArgs: string, x: string, y: string)
    requires ScansAlike("map", rawCtor) && |Parts(rawArgs)| == 2
    requires ScansAlike(x, Parts(rawArgs)[0]) && ScansAlike(y, Parts(rawArgs)[1])
    ensures ScansAlike("map<" + x + ", " + y + ">", rawCtor + "<" + rawArgs + ">")
  {
    var a, b := PartsOfTwo(rawArgs);
    ArgumentsAlike(x, y, a, b);
    BracketsAlike("map", rawCtor, x + ", " + y, rawArgs);
    assert "map" + "<" + (x + ", " + y) + ">" == "map<" + x + ", " + y + ">";
  }

  lemma ArgumentsAlike(x: string, y: string, a: string, b: string)
    requires ScansAlike(x, Trim(a)) && ScansAlike(y, Trim(b))
    ensures ScansAlike(x + ", " + y, a + "," + b)
  {
    TrimAlike(a);
    TrimAlike(b);
    assert (", ")[..1] == "," && TrimEnd(",") == ",";
    assert TrimEnd(", ") == ",";
    TrimEndAlike(", ");
    AlikeConcat(x, a, ", ", ",");
    AlikeConcat(x + ", ", a + ",", y, b);
  }

  /* When the parser undoes the printer. */

  /** A type that reads back as itself: its names are not read as something else, no comma in an argument is outside
      brackets, and the key of a map closes its brackets. */
  predicate Readable(t: Type) {
    match t
    case Void => true
    case Primitive(_) => true
    case Named(n) => n != "" && Trim(n) == n && n != "void" && Alias(n).None? && !ReadsAsGeneric(n)
    case Array(e) => Readable(e) && Commas(Show(e), 0) == 0
    case Map(k, v) =>
      Readable(k) && Readable(v) && Commas(Show(k), 0) == 0 && Depth(Show(k), 0) == 0 && Commas(Show(v), 0) == 0
    case _ => false
  }

  /** `array<..>` with one argument or `map<..>` with two. */
  predicate ReadsAsGeneric(n: string) {
    match ParseGeneric(n)
    case Some(g) => (g.ctor == "array" && |Parts(g.args)| == 1) || (g.ctor == "map" && |Parts(g.args)| == 2)
    case None => false
  }

  lemma SimpleReadsBack(t: Type)
    requires !t.Array? && !t.Map? && !t.Named?
    ensures FromAnnotation(Show(t)) == t <==> Readable(t)
  {
    if t.Primitive? {
      CanonicalIsPlain(t.primitive);
    }
    PlainReads(Show(t));
  }

  lemma NamedReadsBack(n: string)
    ensures FromAnnotation(n) == Named(n) <==> Readable(Named(n))
  {
    TrimTrims(n);
  }

  /** A text without brackets is a name, a primitive or void. */
  lemma PlainReads(n: string)
    requires Plain(n) && Trimmed(n) && n != ""
    ensures FromAnnotation(n) == if n == "void" then Void else Simple(n)
  {
    TrimTrims(n);
    assert Find(n, '<') == |n|;
  }

  lemma {:induction false} ReadableShows(t: Type)
    requires Readable(t)
    ensures Show(t) != "" && Trim(Show(t)) == Show(t)
  {
    TrimTrims(Show(t));
    if t.Primitive? {
      CanonicalIsPlain(t.primitive);
    }
  }

  lemma {:induction false} ArrayReadsBack(e: Type)
    requires FromAnnotation(Show(e)) == e <==> Readable(e)
    ensures FromAnnotation(Show(Array(e))) == Array(e) <==> Readable(Array(e))
  {
    FromArray(Show(e));
    if Readable(e) {
      ReadableShows(e);
    }
  }

  /** The two arguments of a map, printed, are the two parts read exactly if they can be told apart. */
  lemma {:induction false} MapParts(x: string, y: string)
    requires Commas(x, 0) == 0 && Depth(x, 0) == 0
    ensures |Parts(x + ", " + y)| == 2 <==> Commas(y, 0) == 0
    ensures Commas(y, 0) == 0 ==> Parts(x + ", " + y) == [Trim(x), Trim(y)]
  {
    var spaced := " " + y;
    assert x + ", " + y == x + "," + spaced;
    assert spaced[1..] == y;
    CutAt(x, spaced);
    PartsDropFirst(spaced);
    PartsCount(y);
    if Commas(y, 0) == 0 {
      OnePart(y);
    }
  }

  lemma MapText(x: string, y: string)
    ensures "map<" + x + ", " + y + ">" == "map" + "<" + (x + ", " + y) + ">"
  {
  }

  lemma FromMap(args: string, p: string, q: string)
    requires Trim(args) != "" && Parts(args) == [p, q]
    ensures FromAnnotation("map" + "<" + args + ">") == Map(FromAnnotation(p), FromAnnotation(q))
  {
    FromGeneric("map", args);
  }

  lemma MapReads(x: string, y: string)
    requires Commas(x, 0) == 0 && Depth(x, 0) == 0 && Commas(y, 0) == 0
    ensures FromAnnotation("map<" + x + ", " + y + ">") == Map(FromAnnotation(Trim(x)), FromAnnotation(Trim(y)))
  {
    MapParts(x, y);
    MapArgsNotEmpty(x, y);
    FromMap(x + ", " + y, Trim(x), Trim(y));
    MapText(x, y);
  }

  lemma MapArgsNotEmpty(x: string, y: string)
    ensures Trim(x + ", " + y) != ""
  {
    TrimAlike(x + ", " + y);
    ScanConcat(x, ", " + y, 0);
    assert x + ", " + y == x + (", " + y);
    NotAllSpace(x + ", " + y, |x|);
  }

  lemma {:induction false} NotAllSpace(s: string, i: nat)
    requires i < |s| && !IsSpace(s[i])
    ensures Trim(s) != ""
  {
    if IsSpace(s[0]) {
      NotAllSpace(s[1..], i - 1);
    } else {
      TrimEndKeepsFirst(s);
    }
  }

  /** If a map reads back, each part read was one of the arguments printed. */
  lemma MapBack(k: Type, v: Type)
    requires FromAnnotation(Show(Map(k, v))) == Map(k, v)
    ensures Commas(Show(k), 0) == 0 && Depth(Show(k), 0) == 0 && Commas(Show(v), 0) == 0
    ensures FromAnnotation(Show(k)) == k && FromAnnotation(Show(v)) == v
  {
    var args := Show(k) + ", " + Show(v);
    MapText(Show(k), Show(v));
    FromMapBack(args, k, v);
    FirstPartScans(args);
    MapParts(Show(k), Show(v));
    TrimIsEnough(Show(k));
    TrimIsEnough(Show(v));
  }

  lemma FromMapBack(args: string, k: Type, v: Type)
    requires FromAnnotation("map" + "<" + args + ">") == Map(k, v)
    ensures |Parts(args)| == 2 && FromAnnotation(Parts(args)[0]) == k && FromAnnotation(Parts(args)[1]) == v
  {
    FromGeneric("map", args);
  }

  /** The first of two parts is closed and free of outer commas, and so is what is printed for it. */
  lemma FirstPartScans(args: string)
    requires |Parts(args)| == 2
    ensures var shown := Show(FromAnnotation(Parts(args)[0])); Commas(shown, 0) == 0 && Depth(shown, 0) == 0
  {
    var a, b := PartsOfTwo(args);
    TrimAlike(a);
    ShowScansAlike(Trim(a));
  }

  /** Reading back what is printed for a type gives the type exactly if the type is readable. */
  lemma {:induction false} RoundTripIff(t: Type)
    ensures FromAnnotation(Show(t)) == t <==> Readable(t)
  {
    match t
    case Array(e) =>
      RoundTripIff(e);
      ArrayReadsBack(e);
    case Map(k, v) =>
      RoundTripIff(k);
      RoundTripIff(v);
      if Readable(t) {
        MapReads(Show(k), Show(v));
        TrimIsEnough(Show(k));
        TrimIsEnough(Show(v));
      }
      if FromAnnotation(Show(t)) == t {
        MapBack(k, v);
      }
    case Named(n) => NamedReadsBack(n);
    case _ => SimpleReadsBack(t);
  }

  /** Whatever is read is readable, unless something in it is unknown. */
  lemma {:induction false} ParsedIsReadable(s: string)
    ensures Readable(FromAnnotation(s)) <==> Known(FromAnnotation(s))
    decreases |s|
  {
    var t := Trim(s);
    TrimTrims(s);
    if t != "void" && ReadsAsGeneric(t) {
      var _, args := GenericReads(s);
      ParsedIsReadable(Parts(args)[0]);
      if |Parts(args)| == 1 {
        OnlyPartScans(args);
      } else {
        ParsedIsReadable(Parts(args)[1]);
        FirstPartScans(args);
        SecondPartScans(args);
      }
      PartsReadable(FromAnnotation(s));
    }
  }

  lemma PartsReadable(t: Type)
    requires
      || (t.Array? && (Readable(t.element) <==> Known(t.element)) && Commas(Show(t.element), 0) == 0)
      || (t.Map? && (Readable(t.key) <==> Known(t.key)) && (Readable(t.value) <==> Known(t.value))
          && Commas(Show(t.key), 0) == 0 && Depth(Show(t.key), 0) == 0 && Commas(Show(t.value), 0) == 0)
    ensures Readable(t) <==> Known(t)
  {
  }

  lemma OnlyPartScans(args: string)
    requires |Parts(args)| == 1
    ensures Commas(Show(FromAnnotation(Parts(args)[0])), 0) == 0
  {
    PartsCount(args);
    OnePart(args);
    TrimAlike(args);
    ShowScansAlike(Parts(args)[0]);
  }

  lemma SecondPartScans(args: string)
    requires |Parts(args)| == 2
    ensures Commas(Show(FromAnnotation(Parts(args)[1])), 0) == 0
  {
    var a, b := PartsOfTwo(args);
    TrimAlike(b);
    ShowScansAlike(Trim(b));
  }

  /** An annotation's printed form reads as the same type, whatever the annotation, exactly if nothing in it is unknown. */
  lemma PrintedFormIsStable(s: string)
    ensures var t := FromAnnotation(s); FromAnnotation(Show(t)) == t <==> Known(t)
  {
    RoundTripIff(FromAnnotation(s));
    ParsedIsReadable(s);
  }
}
