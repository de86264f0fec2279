/**
 The Upload-Metadata header: parseMetadataHeader and serializeMetadataHeader (unrouted.go).
 A header is a comma-separated list of "key base64(value)" elements; Go iterates over a map
 in any order, so serialising takes the order as a parameter.
 */
module Metadata {
  import opened Prelude
  import opened Strings
  import Base64

  type MetaData = map<string, seq<byte>>

  // ------------------------------------------------------------------ parsing

  datatype Entry = Entry(key: string, value: seq<byte>)

  /** One element of the list, or None when the parser skips it. */
  function ParseElement(element: string): Option<Entry> {
    var parts := Split(TrimSpace(element), ' ');
    if |parts| > 2 || parts[0] == "" then None
    else if |parts| == 1 then Some(Entry(parts[0], []))
    else
      match Base64.Decode(parts[1])
      case None => None
      case Some(value) => Some(Entry(parts[0], value))
  }

  function ParseElements(elements: seq<string>): MetaData {
    if elements == [] then map[]
    else
      var meta := ParseElements(elements[..|elements| - 1]);
      match ParseElement(elements[|elements| - 1])
      case None => meta
      case Some(entry) => meta[entry.key := entry.value]
  }

  function Parse(header: string): MetaData {
    ParseElements(Split(header, ','))
  }

  method ParseMetadataHeader(header: string) returns (meta: MetaData)
    ensures meta == Parse(header)
  {
    hide Base64.Decode, TrimSpace, Split;
    meta := map[];
    var elements := Split(header, ',');
    for i := 0 to |elements|
      invariant meta == ParseElements(elements[..i])
    {
      assert elements[..i + 1][..i] == elements[..i];
      var element := TrimSpace(elements[i]);
      var parts := Split(element, ' ');
      if |parts| > 2 {
        continue;
      }
      var key := parts[0];
      if key == "" {
        continue;
      }
      var value := [];
      if |parts| == 2 {
        var dec := Base64.Decode(parts[1]);
        if dec.None? {
          continue;
        }
        value := dec.value;
      }
      meta := meta[key := value];
    }
    assert elements[..|elements|] == elements;
  }

  // ------------------------------------------------------------------ what is parsed

  /** An element without a space inside is a key without a value. */
  lemma BareKey(element: string)
    ensures var t := TrimSpace(element);
            ' ' !in t ==> ParseElement(element) == if t == "" then None else Some(Entry(t, []))
  {
    hide TrimSpace;
    if ' ' !in TrimSpace(element) {
      SplitWhole(TrimSpace(element), ' ');
    }
  }

  /** One with a single space is a key and a value, if there is a key and the value can be decoded. */
  lemma KeyAndValue(element: string, i: nat)
    ensures var t := TrimSpace(element);
            i < |t| && t[i] == ' ' && ' ' !in t[..i] && ' ' !in t[i + 1..] ==>
              var value := Base64.Decode(t[i + 1..]);
              ParseElement(element) == if i == 0 || value.None? then None else Some(Entry(t[..i], value.value))
  {
    hide TrimSpace, Base64.Decode;
    var t := TrimSpace(element);
    if i < |t| && t[i] == ' ' && ' ' !in t[..i] && ' ' !in t[i + 1..] {
      assert t == t[..i] + [' '] + t[i + 1..];
      SplitElement(t[..i], t[i + 1..]);
    }
  }

  /** One with more is skipped. */
  lemma TooManySpaces(element: string, i: nat, j: nat)
    ensures var t := TrimSpace(element);
            i < j < |t| && t[i] == t[j] == ' ' ==> ParseElement(element).None?
  {
    hide TrimSpace, Base64.Decode;
    var t := TrimSpace(element);
    if i < j < |t| && t[i] == t[j] == ' ' {
      SpacesSplit(t, ' ', i, j);
    }
  }

  lemma SpacesSplit(t: string, sep: char, i: nat, j: nat)
    requires i < j < |t| && t[i] == t[j] == sep
    ensures |Split(t, sep)| > 2
  {
    hide Split;
    var k := FirstOf(t, sep);
    var rest := t[k + 1..];
    assert t == t[..k] + [sep] + rest && rest[j - k - 1] == sep;
    SplitFirst(t[..k], sep, rest);
    var l := FirstOf(rest, sep);
    assert rest == rest[..l] + [sep] + rest[l + 1..];
    SplitFirst(rest[..l], sep, rest[l + 1..]);
    SplitsIntoSome(rest[l + 1..], sep);
  }

  lemma SplitsIntoSome(t: string, sep: char)
    ensures Split(t, sep) != []
  {}

  lemma FirstOf(t: string, sep: char) returns (k: nat)
    requires sep in t
    ensures k < |t| && t[k] == sep && sep !in t[..k]
    ensures forall i :: 0 <= i < |t| && t[i] == sep ==> k <= i
  {
    k := 0;
    while t[k] != sep
      invariant k < |t| && sep !in t[..k]
      decreases |t| - k
    {
      assert t[..k + 1] == t[..k] + [t[k]];
      k := k + 1;
    }
  }

  /** An element gives a key its value if no later one does; a key without an element is not there. */
  lemma {:induction false} LastWins(elements: seq<string>, key: string)
    ensures key in ParseElements(elements) <==> exists i :: 0 <= i < |elements| && Gives(elements[i], key)
    ensures forall i :: 0 <= i < |elements| && Gives(elements[i], key)
                        && (forall j :: i < j < |elements| ==> !Gives(elements[j], key)) ==>
              ParseElements(elements)[key] == ParseElement(elements[i]).value.value
  {
    hide ParseElement;
    if elements != [] {
      var n := |elements| - 1;
      LastWins(elements[..n], key);
      if Gives(elements[n], key) {
      } else {
        forall i | 0 <= i < n
          ensures elements[..n][i] == elements[i]
        {}
      }
    }
  }

  predicate Gives(element: string, key: string) {
    ParseElement(element).Some? && ParseElement(element).value.key == key
  }

  // ------------------------------------------------------------------ serialising

  function Element(key: string, value: seq<byte>): string {
    key + [' '] + Base64.Encode(value)
  }

  function Elements(meta: MetaData, order: seq<string>): (elements: seq<string>)
    requires forall key :: key in order ==> key in meta
    ensures |elements| == |order| && forall i :: 0 <= i < |order| ==> elements[i] == Element(order[i], meta[order[i]])
  {
    seq(|order|, i requires 0 <= i < |order| => Element(order[i], meta[order[i]]))
  }

  function Join(elements: seq<string>): string {
    if elements == [] then ""
    else if |elements| == 1 then elements[0]
    else elements[0] + [','] + Join(elements[1..])
  }

  lemma {:induction false} JoinAppend(elements: seq<string>, last: string)
    requires elements != []
    ensures Join(elements + [last]) == Join(elements) + [','] + last
  {
    if |elements| == 1 {
      assert (elements + [last])[1..] == [last];
    } else {
      assert (elements + [last])[1..] == elements[1..] + [last];
      JoinAppend(elements[1..], last);
    }
  }

  /** order is one order in which Go may iterate over meta. */
  ghost predicate Iterates(order: seq<string>, meta: MetaData) {
    && (forall key :: key in order <==> key in meta)
    && (forall i, j :: 0 <= i < j < |order| ==> order[i] != order[j])
  }

  lemma JoinShort(element: string)
    ensures Join([]) == "" && Join([element]) == element
  {}

  lemma Append(header: string, key: string, enc: string)
    ensures header + key + [' '] + enc == header + (key + [' '] + enc) != ""
  {}

  method SerializeMetadataHeader(meta: MetaData, order: seq<string>) returns (header: string)
    requires Iterates(order, meta)
    ensures header == Join(Elements(meta, order))
  {
    hide Join, Base64.Encode;
    header := "";
    JoinShort("");
    ghost var elements := Elements(meta, order);
    for i := 0 to |order|
      invariant header == Join(elements[..i])
      invariant header == "" <==> i == 0
    {
      assert elements[..i + 1] == elements[..i] + [elements[i]];
      if i > 0 {
        JoinAppend(elements[..i], elements[i]);
      } else {
        assert elements[..i + 1] == [elements[i]];
        JoinShort(elements[i]);
      }
      ghost var before := if |header| > 0 then header + [','] else header;
      Append(before, order[i], Base64.Encode(meta[order[i]]));
      var key := order[i];
      var enc := Base64.Encode(meta[key]);
      if |header| > 0 {
        header := header + [','];
      }
      header := header + key;
      header := header + [' '];
      header := header + enc;
    }
    assert elements[..|order|] == elements;
  }

  // ------------------------------------------------------------------ the round trip

  /** The entries the header syntax can carry. */
  predicate Expressible(key: string, value: seq<byte>) {
    && key != "" && ' ' !in key && ',' !in key
    && !IsSpace(key[0])
    && (!IsSpace(key[|key| - 1]) || value != [])
  }

  predicate AllExpressible(meta: MetaData) {
    forall key :: key in meta ==> Expressible(key, meta[key])
  }

  lemma DecodesToSomething(enc: string)
    requires enc != "" && !IsSpace(enc[|enc| - 1])
    ensures Base64.Decode(enc) != Some([])
  {
    assert Base64.WithoutNewlines(enc) != "";
  }

  lemma TrimSpaceEnds(s: string)
    ensures var t := TrimSpace(s);
            && (t == "" || (!IsSpace(t[0]) && !IsSpace(t[|t| - 1])))
            && forall c :: c in t ==> c in s
  {}

  /** Whatever the parser takes out of an element is expressible. */
  lemma ParsedIsExpressible(element: string)
    requires ',' !in element
    ensures var r := ParseElement(element); r.Some? ==> Expressible(r.value.key, r.value.value)
  {
    hide Base64.Decode, Split, TrimSpace;
    var t := TrimSpace(element);
    TrimSpaceEnds(element);
    var parts := Split(t, ' ');
    SplitParts(t, ' ');
    if ParseElement(element).Some? {
      assert parts[0][0] == t[0];
      if |parts| == 2 {
        assert t[|t| - 1] == (if parts[1] == "" then ' ' else parts[1][|parts[1]| - 1]);
        DecodesToSomething(parts[1]);
      }
    }
  }

  lemma {:induction false} ParsedAllExpressible(elements: seq<string>)
    requires forall i :: 0 <= i < |elements| ==> ',' !in elements[i]
    ensures AllExpressible(ParseElements(elements))
  {
    if elements != [] {
      ParsedAllExpressible(elements[..|elements| - 1]);
      ParsedIsExpressible(elements[|elements| - 1]);
    }
  }

  lemma TrimNothing(s: string)
    requires s != "" && !IsSpace(s[0]) && !IsSpace(s[|s| - 1])
    ensures TrimSpace(s) == s
  {}

  lemma TrimLastSpace(s: string)
    requires s != "" && !IsSpace(s[0]) && !IsSpace(s[|s| - 1])
    ensures TrimSpace(s + [' ']) == s
  {
    var t := s + [' '];
    assert t[..|t| - 1] == s;
    assert TrimLeft(t, IsSpace) == t;
    assert TrimRight(t, IsSpace) == TrimRight(s, IsSpace) == s;
  }

  lemma TrimElement(key: string, value: seq<byte>)
    requires Expressible(key, value)
    ensures TrimSpace(Element(key, value)) == if value == [] then key else Element(key, value)
  {
    hide Base64.Encode, TrimSpace;
    Base64.EncodeAlphabet(value);
    var enc := Base64.Encode(value);
    if value == [] {
      assert Element(key, value) == key + [' '];
      TrimLastSpace(key);
    } else {
      assert enc[|enc| - 1] in enc;
      TrimNothing(Element(key, value));
    }
  }

  lemma SplitElement(key: string, enc: string)
    requires ' ' !in key && ' ' !in enc
    ensures Split(key + [' '] + enc, ' ') == [key, enc]
  {
    SplitFirst(key, ' ', enc);
    SplitWhole(enc, ' ');
  }

  /** An expressible entry survives being written and read as one element. */
  lemma ParseElementOfElement(key: string, value: seq<byte>)
    requires Expressible(key, value)
    ensures ParseElement(Element(key, value)) == Some(Entry(key, value))
  {
    hide Base64.Encode, Base64.Decode, Split, TrimSpace, IsSpace;
    TrimElement(key, value);
    if value == [] {
      SplitWhole(key, ' ');
    } else {
      var enc := Base64.Encode(value);
      Base64.EncodeAlphabet(value);
      Base64.DecodeEncode(value);
      assert ' ' !in enc;
      SplitElement(key, enc);
    }
  }

  lemma ElementHasNoComma(key: string, value: seq<byte>)
    requires Expressible(key, value)
    ensures ',' !in Element(key, value)
  {
    Base64.EncodeAlphabet(value);
  }

  lemma {:induction false} SplitJoin(elements: seq<string>)
    requires elements != [] && forall i :: 0 <= i < |elements| ==> ',' !in elements[i]
    ensures Split(Join(elements), ',') == elements
  {
    if |elements| == 1 {
      SplitWhole(elements[0], ',');
    } else {
      SplitJoin(elements[1..]);
      SplitFirst(elements[0], ',', Join(elements[1..]));
    }
  }

  lemma {:induction false} ParseElementsOfElements(meta: MetaData, order: seq<string>)
    requires forall key :: key in order ==> key in meta && Expressible(key, meta[key])
    ensures ParseElements(Elements(meta, order)) == map key | key in order :: meta[key]
  {
    hide ParseElement, Element, Expressible;
    if order != [] {
      var n := |order| - 1;
      var key := order[n];
      ParseElementsOfElements(meta, order[..n]);
      assert Elements(meta, order)[..n] == Elements(meta, order[..n]);
      ParseElementOfElement(key, meta[key]);
      assert ParseElements(Elements(meta, order)) == ParseElements(Elements(meta, order[..n]))[key := meta[key]];
      assert order == order[..n] + [key];
    }
  }

  lemma ParseEmpty()
    ensures Parse("") == map[]
  {
    assert Split("", ',') == [""] && [""][..0] == [];
    assert TrimSpace("") == "" && Split("", ' ') == [""];
  }

  lemma ParseSerialized(meta: MetaData, order: seq<string>)
    requires Iterates(order, meta) && AllExpressible(meta)
    ensures Parse(Join(Elements(meta, order))) == meta
  {
    hide ParseElement, Element, Expressible, TrimSpace;
    var elements := Elements(meta, order);
    if order == [] {
      assert meta == map[];
      ParseEmpty();
    } else {
      forall i | 0 <= i < |order|
        ensures ',' !in elements[i]
      {
        ElementHasNoComma(order[i], meta[order[i]]);
      }
      SplitJoin(elements);
      ParseElementsOfElements(meta, order);
    }
  }

  /** Parsing what was serialised, in any order, gives the same map exactly when every entry is expressible. */
  lemma RoundTrip(meta: MetaData, order: seq<string>)
    requires Iterates(order, meta)
    ensures Parse(Join(Elements(meta, order))) == meta <==> AllExpressible(meta)
  {
    ParsedAllExpressible(Split(Join(Elements(meta, order)), ','));
    if AllExpressible(meta) {
      ParseSerialized(meta, order);
    }
  }

  /** Parsing is a normal form: a parsed map survives being serialised and parsed again, for every header. */
  lemma NormalForm(header: string, order: seq<string>)
    requires Iterates(order, Parse(header))
    ensures Parse(Join(Elements(Parse(header), order))) == Parse(header)
  {
    ParsedAllExpressible(Split(header, ','));
    RoundTrip(Parse(header), order);
  }
}
