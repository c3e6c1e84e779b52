/**
 CEL as the program sees it: compilation and evaluation are given functions, and only the shape of
 the values that come out matters.
 */
module Cel {
  import opened Outcomes
  import opened Strings
  import opened Multisets

  /** The claims of a token: claim names with their raw JSON. */
  type Claims = map<string, string>

  /** A decoded JSON document. */
  datatype Json =
    | JsonNull
    | JsonBool(b: bool)
    | JsonNumber(n: real)
    | JsonString(s: string)
    | JsonArray(items: seq<Json>)
    | JsonObject(fields: map<string, Json>)

  datatype Item = Text(s: Bytes) | NotText

  /** How a CEL list may be represented in Go. */
  datatype ListValue = Items(items: seq<Item>) | GoStrings(values: seq<Bytes>) | UnknownList

  datatype Value = BoolValue(b: bool) | StringValue(s: string) | ListOf(list: ListValue) | OtherValue

  /** A compiled expression; evaluation yields a value or, as `None`, an error. */
  datatype Program<!In> = Program(eval: In -> Option<Value>)

  datatype ReturnType = AnyType | BoolType

  /**
   A compiler: whether and to what an expression compiles depends only on its text, its variables
   and the return type asked of it.
   */
  datatype Compiler = Compiler(
    claims: (string, ReturnType) -> Option<Program<Claims>>,
    response: string -> Option<Program<Json>>)

  /** The strings of a list that is made of strings, without the empty ones. */
  function NonEmptyStrings(items: seq<Item>): Option<seq<Bytes>> {
    if items == [] then Some([])
    else match (items[0], NonEmptyStrings(items[1..]))
      case (Text(s), Some(rest)) => Some(if s == "" then rest else [s] + rest)
      case _ => None
  }

  /** ConvertCELValueToStringList on a list; only a Go string slice keeps its empty strings. */
  function StringList(list: ListValue): Option<seq<Bytes>> {
    match list
    case Items(items) => NonEmptyStrings(items)
    case GoStrings(values) => Some(values)
    case UnknownList => None
  }

  /** A text that is not empty. */
  function NonEmptyText(item: Item): seq<Bytes> {
    match item
    case Text(s) => if s == "" then [] else [s]
    case NotText => []
  }

  lemma {:induction false} NonEmptyStringsMeaning(items: seq<Item>)
    ensures NonEmptyStrings(items).Some? <==> forall i | 0 <= i < |items| :: items[i].Text?
    ensures NonEmptyStrings(items).Some? ==> NonEmptyStrings(items).value == Flat(NonEmptyText, items)
  {
    if items != [] {
      NonEmptyStringsMeaning(items[1..]);
      FlatConcat(NonEmptyText, [items[0]], items[1..]);
      FlatSingle(NonEmptyText, items[0]);
      assert items == [items[0]] + items[1..];
      hide Flat;
    }
  }

  lemma {:induction false} AllNonEmpty(items: seq<Item>)
    requires forall i | 0 <= i < |items| :: items[i].Text? && items[i].s != ""
    ensures |Flat(NonEmptyText, items)| == |items|
    ensures forall i | 0 <= i < |items| :: Flat(NonEmptyText, items)[i] == items[i].s
  {
    if items != [] {
      AllNonEmpty(items[..|items| - 1]);
    }
  }

  /**
   The strings of a list: there are any exactly if every item is a text, and then they are the texts in
   order, without the empty ones. A Go string slice is taken as it is.
   */
  lemma StringListMeaning(items: seq<Item>, values: seq<Bytes>)
    ensures StringList(Items(items)).Some? <==> forall i | 0 <= i < |items| :: items[i].Text?
    ensures StringList(Items(items)).Some? ==>
              StringList(Items(items)).value == Flat(NonEmptyText, items)
    ensures (forall i | 0 <= i < |items| :: items[i].Text? && items[i].s != "") ==>
              && StringList(Items(items)).Some? && |StringList(Items(items)).value| == |items|
              && forall i | 0 <= i < |items| :: StringList(Items(items)).value[i] == items[i].s
    ensures StringList(GoStrings(values)) == Some(values) && StringList(UnknownList) == None
  {
    NonEmptyStringsMeaning(items);
    if forall i | 0 <= i < |items| :: items[i].Text? && items[i].s != "" {
      AllNonEmpty(items);
    }
    hide NonEmptyStrings, Flat;
  }

  /** Two claims maps say the same about a claim. */
  predicate Agree(c: Claims, d: Claims, name: string) {
    (name in c <==> name in d) && (name in c ==> c[name] == d[name])
  }

  /** An expression does not depend on these claims. */
  ghost predicate Ignores(p: Program<Claims>, names: set<string>) {
    forall c: Claims, d: Claims :: c - names == d - names ==> p.eval(c) == p.eval(d)
  }
}
