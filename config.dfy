/**
 * `_parse_origins`: how the settings read the allowed CORS origins from a
 * value that is a list, a JSON text, a comma-separated text or anything else.
 * A Python value is represented by the `Json` value of the same shape; every
 * kind of value that is neither a list nor a string takes the default path.
 */
module Config {
  import opened Wrappers
  import opened Text
  import opened Json

  /** The origins used when the value is neither a list of strings nor a string. */
  const DefaultOrigins: seq<string> := ["http://localhost:3000", "http://127.0.0.1:3000"]

  /** `all(isinstance(i, str) for i in items)`. */
  predicate AllStrings(items: seq<Json>) {
    forall i :: 0 <= i < |items| ==> items[i].JString?
  }

  /** The strings of a list of strings. */
  function Texts(items: seq<Json>): (r: seq<string>)
    requires AllStrings(items)
    ensures |r| == |items| && forall i :: 0 <= i < |items| ==> items[i] == JString(r[i])
  {
    seq(|items|, i requires 0 <= i < |items| => items[i].s)
  }

  /** A list of Python strings. */
  function AsJson(items: seq<string>): (r: seq<Json>)
    ensures AllStrings(r) && Texts(r) == items
  {
    var r := seq(|items|, i requires 0 <= i < |items| => JString(items[i]));
    assert forall i :: 0 <= i < |items| ==> Texts(r)[i] == items[i];
    r
  }

  /** `o.strip().strip('"').strip("'")`. */
  function CleanPiece(o: string): string {
    StripChar(StripChar(Strip(o), '"'), '\'')
  }

  /** `[f(o) for o in parts if keep(o)]`. */
  function FilterMap(parts: seq<string>, keep: string -> bool, f: string -> string): (r: seq<string>)
    ensures |r| <= |parts|
  {
    if parts == [] then []
    else (if keep(parts[0]) then [f(parts[0])] else []) + FilterMap(parts[1..], keep, f)
  }

  /** The comma-separated fallback: `[clean(o) for o in s.split(",") if o.strip()]`. */
  function Csv(s: string): seq<string> {
    FilterMap(SplitOn(s, ","), HasVisible, CleanPiece)
  }

  /** The JSON branch applies: a `[`-text that parses as a list of strings. */
  predicate ParsesAsList(s: string, loads: Loads) {
    StartsWith(s, "[") && loads(s).Some? && loads(s).value.JArray?
    && AllStrings(loads(s).value.items)
  }

  /** `_parse_origins(value)`, with `json.loads` given as `loads`. */
  function ParseOrigins(value: Json, loads: Loads): seq<string> {
    if value.JArray? && AllStrings(value.items) then Texts(value.items)
    else if value.JString? then
      var s := Strip(value.s);
      if ParsesAsList(s, loads) then Texts(loads(s).value.items) else Csv(s)
    else DefaultOrigins
  }

  /** A list of strings is returned as it is. */
  lemma ListPassesThrough(items: seq<string>, loads: Loads)
    ensures ParseOrigins(JArray(AsJson(items)), loads) == items
  {
  }

  /** A text that parses as a JSON list of strings gives that list. */
  lemma JsonListParsed(value: string, loads: Loads, items: seq<string>)
    requires StartsWith(Strip(value), "[")
    requires loads(Strip(value)) == Some(JArray(AsJson(items)))
    ensures ParseOrigins(JString(value), loads) == items
  {
  }

  /** A text that fails to parse, or parses as something else, is read as comma-separated. */
  lemma FallsBackToCsv(value: string, loads: Loads)
    requires !ParsesAsList(Strip(value), loads)
    ensures ParseOrigins(JString(value), loads) == Csv(Strip(value))
  {
  }

  /** A stripped text that does not open a JSON list is read as comma-separated. */
  lemma ReadsAsCsv(value: string, loads: Loads, origins: seq<string>)
    requires Strip(value) == value && !StartsWith(value, "[") && Csv(value) == origins
    ensures ParseOrigins(JString(value), loads) == origins
  {
  }

  /** Anything that is neither a list of strings nor a string gives the defaults. */
  lemma OtherValuesDefault(value: Json, loads: Loads)
    requires !value.JString? && !(value.JArray? && AllStrings(value.items))
    ensures ParseOrigins(value, loads) == DefaultOrigins
  {
  }

  /** A list holding a non-string is not passed through. */
  lemma MixedListDefaults(items: seq<Json>, loads: Loads)
    requires exists i :: 0 <= i < |items| && !items[i].JString?
    ensures ParseOrigins(JArray(items), loads) == DefaultOrigins
  {
  }

  /** A blank text gives no origins. */
  lemma BlankGivesNone(value: string, loads: Loads)
    requires !HasVisible(value)
    ensures ParseOrigins(JString(value), loads) == []
  {
    assert Strip(value) == [];
    assert SplitOn([], ",") == [[]];
  }

  /** A comprehension whose map keeps out `c` yields no element with `c`. */
  lemma {:induction false} FilterMapOmits(parts: seq<string>, keep: string -> bool, f: string -> string, c: char)
    requires forall k :: 0 <= k < |parts| ==> c !in parts[k]
    requires forall p :: c !in p ==> c !in f(p)
    ensures forall k :: 0 <= k < |FilterMap(parts, keep, f)| ==> c !in FilterMap(parts, keep, f)[k]
  {
    if parts != [] {
      FilterMapOmits(parts[1..], keep, f, c);
    }
  }

  lemma CleanOmits(p: string, c: char)
    requires c !in p
    ensures c !in CleanPiece(p)
  {
    StripOmits(p, '"', c);
    StripOmits(Strip(p), '"', c);
    StripOmits(StripChar(Strip(p), '"'), '\'', c);
  }

  /** No comma-separated origin contains a comma. */
  lemma CsvHasNoComma(s: string)
    ensures forall k :: 0 <= k < |Csv(s)| ==> ',' !in Csv(s)[k]
  {
    SplitOnOmits(s, ',');
    forall p | ',' !in p ensures ',' !in CleanPiece(p) {
      CleanOmits(p, ',');
    }
    FilterMapOmits(SplitOn(s, ","), HasVisible, CleanPiece, ',');
  }

  /** An origin that comes back unchanged from the comma-separated reading. */
  predicate IsPlainOrigin(o: string) {
    o != [] && ',' !in o && o[0] != '[' && !IsSpace(o[0]) && !IsSpace(o[|o| - 1])
    && o[0] != '"' && o[|o| - 1] != '"' && o[0] != '\'' && o[|o| - 1] != '\''
  }

  /** Every origin of the list is plain. */
  predicate AllPlain(os: seq<string>) {
    forall k :: 0 <= k < |os| ==> IsPlainOrigin(os[k])
  }

  lemma CleanKeepsPlain(o: string)
    requires IsPlainOrigin(o)
    ensures HasVisible(o) && CleanPiece(o) == o
  {
    StripKeeps(o);
    StripCharKeeps(o, '"');
    StripCharKeeps(o, '\'');
  }

  lemma FilterMapPair(a: string, b: string, keep: string -> bool, f: string -> string)
    requires keep(a) && keep(b)
    ensures FilterMap([a, b], keep, f) == [f(a), f(b)]
  {
    assert [a, b][1..] == [b] && [b][1..] == [];
  }

  /** A comprehension that keeps every element and maps each to itself is the identity. */
  lemma {:induction false} FilterMapKeepsAll(parts: seq<string>, keep: string -> bool, f: string -> string)
    requires forall k :: 0 <= k < |parts| ==> keep(parts[k]) && f(parts[k]) == parts[k]
    ensures FilterMap(parts, keep, f) == parts
  {
    if parts != [] {
      FilterMapKeepsAll(parts[1..], keep, f);
      assert [parts[0]] + parts[1..] == parts;
    }
  }

  lemma {:induction false} JoinEnds(os: seq<string>)
    requires os != [] && forall k :: 0 <= k < |os| ==> os[k] != []
    ensures Join(os, ",") != [] && Join(os, ",")[0] == os[0][0]
    ensures Join(os, ",")[|Join(os, ",")| - 1] == os[|os| - 1][|os[|os| - 1]| - 1]
  {
    if |os| > 1 {
      JoinEnds(os[1..]);
    }
  }

  /** A non-empty run of double quotes. */
  predicate QuotesOnly(q: string) {
    q != [] && forall i :: 0 <= i < |q| ==> q[i] == '"'
  }

  /** A run of quotes passes the blank filter and is then stripped to nothing. */
  lemma CleanQuotes(q: string)
    requires QuotesOnly(q)
    ensures HasVisible(q) && CleanPiece(q) == []
  {
    QuotesVisible(q);
    assert StripChar(q, '"') == [];
  }

  lemma QuotesVisible(q: string)
    requires QuotesOnly(q)
    ensures HasVisible(q) && Strip(q) == q
  {
    assert !IsSpace(q[0]) && !IsSpace(q[|q| - 1]);
    StripKeeps(q);
  }

  /** A joined text starts with its first part's first character. */
  lemma NotAList(os: seq<string>)
    requires os != [] && forall k :: 0 <= k < |os| ==> os[k] != []
    requires os[0][0] != '['
    ensures !StartsWith(Join(os, ","), "[")
  {
    JoinEnds(os);
  }

  /** A joined text whose two ends are not whitespace is its own strip. */
  lemma JoinedIsStripped(os: seq<string>)
    requires os != [] && forall k :: 0 <= k < |os| ==> os[k] != []
    requires !IsSpace(os[0][0]) && !IsSpace(os[|os| - 1][|os[|os| - 1]| - 1])
    ensures Strip(Join(os, ",")) == Join(os, ",")
  {
    JoinEnds(os);
    StripKeeps(Join(os, ","));
  }

  lemma JoinPair(o: string, q: string)
    ensures Join([o, q], ",") == o + "," + q
  {
    assert [o, q][1..] == [q];
  }

  lemma CsvQuotePiece(o: string, q: string)
    requires IsPlainOrigin(o) && QuotesOnly(q)
    ensures Csv(Join([o, q], ",")) == [o, []]
  {
    assert ',' !in q by { assert forall i :: 0 <= i < |q| ==> q[i] != ','; }
    SplitJoin([o, q], ',');
    CleanKeepsPlain(o);
    CleanQuotes(q);
    FilterMapPair(o, q, HasVisible, CleanPiece);
  }

  /**
   * The blank filter looks at a piece before its quotes are stripped: a
   * piece made only of double quotes gives an empty origin. So does one of
   * single quotes only, or a run of one quote followed by a run of the other; a piece
   * `'"'` does not, since stripping `"` leaves it whole and stripping `'`
   * then leaves `"`.
   */
  lemma QuoteOnlyPieceIsEmpty(o: string, q: string, loads: Loads)
    requires IsPlainOrigin(o) && QuotesOnly(q)
    ensures ParseOrigins(JString(o + "," + q), loads) == [o, []]
  {
    var os := [o, q];
    assert !IsSpace(q[|q| - 1]);
    JoinedIsStripped(os);
    NotAList(os);
    CsvQuotePiece(o, q);
    ReadsAsCsv(Join(os, ","), loads, [o, []]);
    JoinPair(o, q);
  }

  /** Plain origins joined with commas form a stripped text that does not open a list. */
  lemma JoinedPlain(os: seq<string>)
    requires os != [] && AllPlain(os)
    ensures Strip(Join(os, ",")) == Join(os, ",") && !StartsWith(Join(os, ","), "[")
  {
    JoinedIsStripped(os);
    NotAList(os);
  }

  lemma CsvOfPlain(os: seq<string>)
    requires os != [] && AllPlain(os)
    ensures Csv(Join(os, ",")) == os
  {
    SplitJoin(os, ',');
    forall k | 0 <= k < |os| ensures HasVisible(os[k]) && CleanPiece(os[k]) == os[k] {
      CleanKeepsPlain(os[k]);
    }
    FilterMapKeepsAll(os, HasVisible, CleanPiece);
  }

  /**
   * Round trip: writing plain origins comma-separated (as an environment
   * variable would hold them) and parsing the text gives them back.
   */
  lemma CsvRoundTrip(os: seq<string>, loads: Loads)
    requires os != [] && AllPlain(os)
    ensures ParseOrigins(JString(Join(os, ",")), loads) == os
  {
    JoinedPlain(os);
    CsvOfPlain(os);
    ReadsAsCsv(Join(os, ","), loads, os);
  }
}
