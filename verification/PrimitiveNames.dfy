/** The spellings of the primitive types (src/types/parse.rs), told from what the types are. */
module PrimitiveNames {
  import opened Wrappers
  import opened Types

  /** The width in bits of an integer type, as it is written. */
  function Width(p: Primitive): Option<string> {
    match p
    case Int8 => Some("8")
    case Byte => Some("8")
    case Int16 => Some("16")
    case Uint16 => Some("16")
    case Int => Some("32")
    case Uint32 => Some("32")
    case Uint64 => Some("64")
    case _ => None
  }

  predicate Unsigned(p: Primitive) {
    p.Byte? || p.Uint16? || p.Uint32? || p.Uint64?
  }

  /** An integer type can be written with its signedness and width, a name with the engine's prefix, and the other basic
      types with a capital. */
  function Engine(p: Primitive): Option<string> {
    if Width(p).Some? then Some((if Unsigned(p) then "Uint" else "Int") + Width(p).value)
    else match p
      case Bool => Some(Capital(Canonical(p)))
      case Float => Some(Capital(Canonical(p)))
      case String => Some(Capital(Canonical(p)))
      case Name => Some("C" + Capital(Canonical(p)))
      case _ => None
  }

  function Capital(s: string): string {
    if s != "" && 'a' <= s[0] <= 'z' then [(s[0] as int - 32) as char] + s[1..] else s
  }

  lemma {:induction false} EngineIs(p: Primitive)
    ensures Engine(p) == match p
      case Bool => Some("Bool")
      case Byte => Some("Uint8")
      case Int => Some("Int32")
      case Int16 => Some("Int16")
      case Int8 => Some("Int8")
      case Uint16 => Some("Uint16")
      case Uint32 => Some("Uint32")
      case Uint64 => Some("Uint64")
      case Float => Some("Float")
      case Name => Some("CName")
      case String => Some("String")
      case StringAnsi => None
  {
    assert Capital("bool") == ['B'] + "ool" && Capital("float") == ['F'] + "loat";
    assert Capital("string") == ['S'] + "tring" && Capital("name") == ['N'] + "ame";
    assert ['N'] + "ame" == "Name" && "C" + "Name" == "CName" && ['B'] + "ool" == "Bool";
    assert ['F'] + "loat" == "Float" && ['S'] + "tring" == "String";
    assert "Uint" + "8" == "Uint8" && "Int" + "32" == "Int32" && "Int" + "16" == "Int16" && "Int" + "8" == "Int8";
    assert "Uint" + "16" == "Uint16" && "Uint" + "32" == "Uint32" && "Uint" + "64" == "Uint64";
  }

  /** The canonical name is a word of the language in small letters, or else the engine's. */
  lemma {:induction false} CanonicalIs(p: Primitive)
    ensures Small(Canonical(p)) <==> p.Bool? || p.Byte? || p.Int? || p.Float? || p.Name? || p.String?
    ensures Engine(p) == Some(Canonical(p)) <==> p.Int8? || p.Int16? || p.Uint16? || p.Uint32? || p.Uint64?
  {
    EngineIs(p);
    assert !Small(Canonical(p)) <== Canonical(p)[0] < 'a';
  }

  predicate Small(s: string) {
    forall i :: 0 <= i < |s| ==> 'a' <= s[i] <= 'z'
  }

  lemma {:induction false} SpellingsAreAliases(p: Primitive)
    ensures Alias(Canonical(p)) == Some(p) && (Engine(p).Some? ==> Alias(Engine(p).value) == Some(p))
  {
    EngineIs(p);
  }

  lemma {:induction false} AliasIsSpelling(s: string, p: Primitive)
    requires Alias(s) == Some(p)
    ensures s == Canonical(p) || Some(s) == Engine(p)
  {
    EngineIs(p);
  }

  /** A spelling names a primitive exactly if it is its canonical name or its name in the engine. */
  lemma AliasIff(s: string, p: Primitive)
    ensures Alias(s) == Some(p) <==> s == Canonical(p) || Some(s) == Engine(p)
  {
    SpellingsAreAliases(p);
    if Alias(s) == Some(p) {
      AliasIsSpelling(s, p);
    }
  }
}
