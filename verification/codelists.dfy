/** Codelist binding: the codes a codelist-bound column may take, from an
    inline enumeration or from a fetched open codelist. */
module Codelists {
  import opened Base
  import opened Seqs
  import opened Strings
  import opened Config
  import opened Fields

  const EnumMarker: string := "Enum"

  /** Characters dropped before the inline codes: the marker and `: `. */
  const EnumPrefixLength: nat := 6

  const CodeSeparator: string := ", "

  /** `values[:4] == 'Enum'`. */
  function IsEnum(values: string): (b: bool)
    ensures b <==> EnumMarker <= values
  {
    Take(values, |EnumMarker|) == EnumMarker
  }

  /** The inline codes: `values[6:]` split on `, `. They keep their source
      order and are not de-duplicated, so joining them again gives back the
      text after the prefix. */
  function EnumCodes(values: string): (codes: seq<string>)
    ensures |codes| >= 1
    ensures Join(codes, CodeSeparator) == Drop(values, EnumPrefixLength)
    ensures forall k :: 0 <= k < |codes| ==> !Occurs(codes[k], CodeSeparator)
  {
    Split(Drop(values, EnumPrefixLength), CodeSeparator)
  }

  /** The example enumeration parses to its three codes in order. */
  lemma EnumCodesExample()
    ensures EnumCodes("Enum: a, b, c") == ["a", "b", "c"]
  {
    var text := "a, b, c";
    assert Drop("Enum: a, b, c", EnumPrefixLength) == "Enum: a, b, c"[6..] == text;
    assert text == ['a'] + CodeSeparator + ['b'] + CodeSeparator + ['c'];
    SplitThree('a', 'b', 'c');
  }

  /** A split whose first separator sits at position 1. */
  lemma SplitAfterOneChar(text: string)
    requires |text| >= 3 && text[1..3] == CodeSeparator && text[0] != ','
    ensures Split(text, CodeSeparator) == [text[..1]] + Split(text[3..], CodeSeparator)
  {
    assert OccursAt(text, CodeSeparator, 1);
    assert text[0..2][0] == text[0];
    IndexOfUnique(text, CodeSeparator, 1);
  }

  /** A one-character code contains no separator. */
  lemma SplitOneChar(text: string)
    requires |text| == 1
    ensures Split(text, CodeSeparator) == [text]
  {
    SplitWithoutSeparator(text, CodeSeparator);
  }

  /** Two one-character codes. */
  lemma SplitPair(text: string)
    requires |text| == 4 && text[1..3] == CodeSeparator && text[0] != ','
    ensures Split(text, CodeSeparator) == [text[..1], text[3..]]
  {
    SplitAfterOneChar(text);
    SplitOneChar(text[3..]);
  }

  /** Three one-character codes. */
  lemma SplitThree(a: char, b: char, c: char)
    requires a != ',' && b != ','
    ensures Split([a] + CodeSeparator + [b] + CodeSeparator + [c], CodeSeparator) == [[a], [b], [c]]
  {
    var rest := [b] + CodeSeparator + [c];
    assert [a] + CodeSeparator + [b] + CodeSeparator + [c] == [a] + CodeSeparator + rest;
    SplitLeadingCode(a, rest);
    SplitLeadingCode(b, [c]);
    SplitOneChar([c]);
  }

  /** A one-character code followed by the separator splits off first. */
  lemma SplitLeadingCode(a: char, rest: string)
    requires a != ','
    ensures Split([a] + CodeSeparator + rest, CodeSeparator) == [[a]] + Split(rest, CodeSeparator)
  {
    var text := [a] + CodeSeparator + rest;
    assert text[1..3] == CodeSeparator && text[..1] == [a] && text[3..] == rest;
    SplitAfterOneChar(text);
  }

  /** Repeated codes are kept: no de-duplication happens. */
  lemma EnumCodesKeepDuplicates()
    ensures EnumCodes("Enum: a, a") == ["a", "a"]
  {
    var text := "a, a";
    assert Drop("Enum: a, a", EnumPrefixLength) == "Enum: a, a"[6..] == text;
    SplitPair(text);
    assert text[..1] == "a" && text[3..] == "a";
  }

  /** The schema's base URL: the URL up to the first `/rdls_schema.json`, or
      all of it when the marker does not occur. */
  function SchemaBase(schemaUrl: string): (base: string)
    ensures base <= schemaUrl
    ensures !Occurs(base, SchemaFileMarker)
    ensures base == schemaUrl || OccursAt(schemaUrl, SchemaFileMarker, |base|)
  {
    var parts := Split(schemaUrl, SchemaFileMarker);
    JoinHeadPrefix(parts, SchemaFileMarker);
    if |parts| > 1 then
      assert schemaUrl == parts[0] + SchemaFileMarker + Join(parts[1..], SchemaFileMarker);
      assert schemaUrl[|parts[0]|..|parts[0]| + |SchemaFileMarker|] == SchemaFileMarker;
      parts[0]
    else parts[0]
  }

  /** Two occurrences of the marker never overlap: its only `/` is its first
      character. */
  lemma MarkerOverlap(url: string, i: nat, j: nat)
    requires OccursAt(url, SchemaFileMarker, i) && OccursAt(url, SchemaFileMarker, j) && i < j
    ensures i + |SchemaFileMarker| <= j
  {
    var m := SchemaFileMarker;
    assert url[j] == '/' by { assert url[j..j + |m|][0] == url[j]; }
    forall k | i < k < i + |m| ensures url[k] != '/' {
      assert url[k] == url[i..i + |m|][k - i];
    }
  }

  /** A schema URL made of a marker-free base, the marker and anything after
      has that base. */
  lemma SchemaBaseOf(base: string, rest: string)
    requires !Occurs(base, SchemaFileMarker)
    ensures SchemaBase(base + SchemaFileMarker + rest) == base
  {
    var m := SchemaFileMarker;
    var url := base + m + rest;
    assert OccursAt(url, m, |base|) by { assert url[|base|..|base| + |m|] == m; }
    forall j: nat | j < |base| ensures !OccursAt(url, m, j) {
      if OccursAt(url, m, j) {
        MarkerOverlap(url, j, |base|);
        assert base[j..j + |m|] == url[j..j + |m|];
        assert OccursAt(base, m, j);
      }
    }
    IndexOfUnique(url, m, |base|);
    assert url[..|base|] == base;
  }

  /** A string holding the marker holds an underscore. */
  lemma MarkerHasUnderscore(s: string)
    requires Occurs(s, SchemaFileMarker)
    ensures '_' in s
  {
    var i: nat :| OccursAt(s, SchemaFileMarker, i);
    assert s[i + 5] == s[i..i + |SchemaFileMarker|][5] == '_';
  }

  lemma NoUnderscoreNoMarker(s: string)
    requires '_' !in s
    ensures !Occurs(s, SchemaFileMarker)
  {
    if Occurs(s, SchemaFileMarker) {
      MarkerHasUnderscore(s);
    }
  }

  /** The URL of an open codelist, beside the schema. */
  function CodelistUrl(schemaUrl: string, codelist: string): (url: string)
    ensures |url| >= |OpenCodelistDir| + |codelist|
    ensures var base := url[..|url| - |OpenCodelistDir| - |codelist|];
      && url == base + OpenCodelistDir + codelist
      && base <= schemaUrl
      && !Occurs(base, SchemaFileMarker)
      && (base == schemaUrl || OccursAt(schemaUrl, SchemaFileMarker, |base|))
  {
    var base := SchemaBase(schemaUrl);
    var url := base + OpenCodelistDir + codelist;
    assert url[..|url| - |OpenCodelistDir| - |codelist|] == base;
    url
  }

  /** The codes for a codelist-bound field: the inline enumeration when the
      values start with `Enum`, otherwise the `Code` column of the fetched
      open codelist. `fetched` maps a URL to that column; a URL it lacks
      could not be fetched. */
  function ResolveCodes(field: Field, schemaUrl: string, fetched: map<string, seq<string>>): (r: Result<seq<string>>)
    ensures IsEnum(field.values) ==> r == Ok(EnumCodes(field.values))
    ensures !IsEnum(field.values) ==>
      (r.Ok? <==> CodelistUrl(schemaUrl, field.codelist) in fetched)
    ensures !IsEnum(field.values) && r.Ok? ==> r.value == fetched[CodelistUrl(schemaUrl, field.codelist)]
    ensures r.Err? ==> r.error == CodelistUnavailable(CodelistUrl(schemaUrl, field.codelist))
  {
    if IsEnum(field.values) then Ok(EnumCodes(field.values))
    else
      var url := CodelistUrl(schemaUrl, field.codelist);
      if url in fetched then Ok(fetched[url]) else Err(CodelistUnavailable(url))
  }

  /** The codelists of a schema published at `base + "/rdls_schema.json"`
      are fetched from `base + "/codelists/open/"`. */
  lemma CodelistUrlBesideSchema(base: string, codelist: string)
    requires !Occurs(base, SchemaFileMarker)
    ensures CodelistUrl(base + SchemaFileMarker, codelist) == base + "/codelists/open/" + codelist
  {
    SchemaBaseOf(base, "");
    assert base + SchemaFileMarker + "" == base + SchemaFileMarker;
  }

  /** The base of the default schema URL holds no marker. */
  lemma DefaultBaseHasNoMarker(base: string)
    requires base == "https://rdl-standard.readthedocs.io/en/dev"
    ensures !Occurs(base, SchemaFileMarker)
  {
    assert '_' !in base;
    NoUnderscoreNoMarker(base);
  }

  /** With the default schema URL, codelists come from the documentation
      site's `codelists/open` directory. The site's base URL is passed in and
      fixed by the precondition, so the long literal is written once and
      both statements read as that base plus a suffix. */
  lemma DefaultCodelistUrl(base: string, codelist: string)
    requires base == "https://rdl-standard.readthedocs.io/en/dev"
    ensures base + SchemaFileMarker == DefaultSchemaUrl
    ensures CodelistUrl(DefaultSchemaUrl, codelist) == base + OpenCodelistDir + codelist
  {
    assert base + SchemaFileMarker == DefaultSchemaUrl;
    DefaultBaseHasNoMarker(base);
    CodelistUrlBesideSchema(base, codelist);
  }
}
