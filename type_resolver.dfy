/**
 * Type resolution: schema type references to Rust type names, and the
 * shield for field names that collide with Rust keywords.
 */
module TypeResolver {
  import opened Nodes

  /** The text after the last `:` of a type reference (all of it when there is no `:`). */
  function SplitType(t: string): (r: string)
    ensures ':' !in r
    ensures |r| <= |t| && r == t[|t| - |r|..]
    ensures |r| < |t| ==> t[|t| - |r| - 1] == ':'
  {
    if t == [] then []
    else if t[|t| - 1] == ':' then []
    else SplitType(t[..|t| - 1]) + [t[|t| - 1]]
  }

  /** The Rust type for a schema primitive; other names are user types, in Pascal casing. */
  function FetchType(t: string, cs: Casing): string
  {
    ResolveName(SplitType(t), cs)
  }

  /** The fixed table of FetchType, applied to a name without prefix. */
  function ResolveName(v: string, cs: Casing): string
  {
    if v == "string" || v == "base64Binary" then "String"
    else if v == "decimal" then "f64"
    else if v == "integer" || v == "int" || v == "long" then "u64"
    else if v == "short" then "u8"
    else if v == "boolean" then "bool"
    else if v == "date" || v == "xs:time" then "SystemTime"
    else cs.pascal(v)
  }

  /** The fixed table of primitive names, as a reference for FetchType. */
  function Primitive(v: string): (r: Wrappers.Option<string>)
  {
    if v == "string" || v == "base64Binary" then Wrappers.Some("String")
    else if v == "decimal" then Wrappers.Some("f64")
    else if v == "integer" || v == "int" || v == "long" then Wrappers.Some("u64")
    else if v == "short" then Wrappers.Some("u8")
    else if v == "boolean" then Wrappers.Some("bool")
    else if v == "date" then Wrappers.Some("SystemTime")
    else Wrappers.None
  }

  /** Renames the one field name that is a Rust keyword. */
  function ShieldReservedNames(name: string): (r: string)
    ensures r != "type"
    ensures name != "type" ==> r == name
    ensures name == "type" ==> r == "rs_type"
  {
    if name == "type" then "rs_type" else name
  }

  /** SplitType keeps exactly the text after the last separator. */
  lemma {:induction false} SplitAfterLastColon(prefix: string, v: string)
    requires ':' !in v
    ensures SplitType(prefix + ":" + v) == v
    ensures SplitType(v) == v
  {
    if v == [] {
      assert (prefix + ":" + v)[|prefix + ":" + v| - 1] == ':';
    } else {
      var w := v[..|v| - 1];
      assert prefix + ":" + v == (prefix + ":" + w) + [v[|v| - 1]];
      assert v == w + [v[|v| - 1]];
      SplitAfterLastColon(prefix, w);
    }
  }

  /**
   * FetchType depends only on the text after the last `:`, maps every primitive
   * of the table to its fixed Rust type and every other name to its Pascal casing.
   */
  lemma FetchTypeResolves(prefix: string, v: string, cs: Casing)
    requires ':' !in v
    ensures FetchType(prefix + ":" + v, cs) == FetchType(v, cs)
    ensures Primitive(v).Some? ==> FetchType(v, cs) == Primitive(v).value
    ensures Primitive(v).None? ==> FetchType(v, cs) == cs.pascal(v)
  {
    SplitAfterLastColon(prefix, v);
    FetchTypeTable(v, cs);
  }

  lemma FetchTypeTable(v: string, cs: Casing)
    requires ':' !in v && SplitType(v) == v
    ensures Primitive(v).Some? ==> FetchType(v, cs) == Primitive(v).value
    ensures Primitive(v).None? ==> FetchType(v, cs) == cs.pascal(v)
  {
    if v == "string" || v == "base64Binary" {
    } else if v == "decimal" {
    } else if v == "integer" || v == "int" || v == "long" {
    } else if v == "short" {
    } else if v == "boolean" {
    } else if v == "date" {
    } else {
      assert "xs:time"[2] == ':';
      assert v != "xs:time";
      assert Primitive(v).None?;
    }
  }

  /**
   * The `"xs:time"` arm of FetchType never matches: a qualified `xs:time`
   * resolves like the unknown name `time`, to its Pascal casing.
   */
  lemma TimeIsNotPrimitive(cs: Casing)
    ensures FetchType("xs:time", cs) == cs.pascal("time")
  {
    SplitAfterLastColon("xs", "time");
  }

  /** Shielding merges `type` with a field already called `rs_type`: the two collide. */
  lemma ShieldCollides()
    ensures ShieldReservedNames("type") == ShieldReservedNames("rs_type")
  {
  }
}
