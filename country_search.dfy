/**
 * Queries on the country table of the phone input: the dial code shown next to the flag
 * (`getDialCode`) and the search box of the country picker (`filteredCountries`).
 * The table itself is a parameter; the countries' data are not part of this model.
 */
module CountrySearch {
  import opened Wrappers
  import opened Sequences

  /** ISO 3166-1 alpha-2 code such as "US"; any string is accepted. */
  type CountryCode = string

  datatype Country = Country(code: CountryCode, name: string, callingCode: string, flag: string)

  // ---------------------------------------------------------------------------
  // getDialCode
  // ---------------------------------------------------------------------------

  /** `countries.find(c => c.code === code)`, as the index of the first match. */
  function FindByCode(countries: seq<Country>, code: CountryCode): (r: Option<nat>)
    ensures r.None? <==> forall i :: 0 <= i < |countries| ==> countries[i].code != code
    ensures r.Some? ==> r.value < |countries| && countries[r.value].code == code
    ensures r.Some? ==> forall j :: 0 <= j < r.value ==> countries[j].code != code
  {
    if |countries| == 0 then None
    else if countries[0].code == code then Some(0)
    else match FindByCode(countries[1..], code)
      case None => None
      case Some(i) => Some(i + 1)
  }

  /** The calling code of the first country with this code, or "" when there is none. */
  function GetDialCode(countries: seq<Country>, code: CountryCode): (r: string)
    ensures (forall i :: 0 <= i < |countries| ==> countries[i].code != code) ==> r == ""
    ensures forall i :: (0 <= i < |countries| && countries[i].code == code &&
      (forall j :: 0 <= j < i ==> countries[j].code != code)) ==> r == countries[i].callingCode
  {
    match FindByCode(countries, code)
    case None => ""
    case Some(i) => countries[i].callingCode
  }

  // ---------------------------------------------------------------------------
  // String.prototype.trim and toLowerCase
  // ---------------------------------------------------------------------------

  /**
   * The characters `trim` removes: ECMAScript WhiteSpace (tab, vertical tab, form feed,
   * U+FEFF and the space separators) and LineTerminator (LF, CR, U+2028, U+2029).
   */
  predicate IsJsWhitespace(c: char) {
    var n := c as int;
    n == 0x09 || n == 0x0A || n == 0x0B || n == 0x0C || n == 0x0D || n == 0x20 ||
    n == 0xA0 || n == 0x1680 || (0x2000 <= n <= 0x200A) || n == 0x2028 || n == 0x2029 ||
    n == 0x202F || n == 0x205F || n == 0x3000 || n == 0xFEFF
  }

  predicate AllWhitespace(s: string) {
    forall i :: 0 <= i < |s| ==> IsJsWhitespace(s[i])
  }

  /** Drops the leading whitespace: the result is the longest suffix not starting with whitespace. */
  function TrimStart(s: string): (r: string)
    ensures |r| <= |s| && r == s[|s| - |r|..]
    ensures AllWhitespace(s[..|s| - |r|])
    ensures |r| > 0 ==> !IsJsWhitespace(r[0])
  {
    if |s| > 0 && IsJsWhitespace(s[0]) then TrimStart(s[1..]) else s
  }

  /** Drops the trailing whitespace: the result is the longest prefix not ending in whitespace. */
  function TrimEnd(s: string): (r: string)
    ensures |r| <= |s| && r == s[..|r|]
    ensures AllWhitespace(s[|r|..])
    ensures |r| > 0 ==> !IsJsWhitespace(r[|r| - 1])
  {
    if |s| > 0 && IsJsWhitespace(s[|s| - 1]) then TrimEnd(s[..|s| - 1]) else s
  }

  /**
   * `s.trim()`: the middle of `s` left after removing only whitespace on either side; blank
   * exactly for all-whitespace input, otherwise bounded by non-whitespace.
   */
  function Trim(s: string): (r: string)
    ensures exists i :: (0 <= i <= |s| - |r| && r == s[i..i + |r|] &&
                         AllWhitespace(s[..i]) && AllWhitespace(s[i + |r|..]))
    ensures |r| == 0 <==> AllWhitespace(s)
    ensures |r| > 0 ==> !IsJsWhitespace(r[0]) && !IsJsWhitespace(r[|r| - 1])
  {
    var t := TrimStart(s);
    assert |t| == 0 ==> s[..|s| - |t|] == s;
    var r := TrimEnd(t);
    var i := |s| - |t|;
    assert r == s[i..i + |r|];
    assert s[i + |r|..] == t[|r|..];
    r
  }

  /** `toLowerCase` on one character, for the ASCII letters. */
  function LowerAscii(c: char): char {
    if 'A' <= c <= 'Z' then (c as int + 32) as char else c
  }

  function ToLowerAscii(s: string): string {
    seq(|s|, i requires 0 <= i < |s| => LowerAscii(s[i]))
  }

  /** `s.includes(sub)`, by walking the start position along `s`. */
  predicate Includes(s: string, sub: string)
    decreases |s|
  {
    (|sub| <= |s| && s[..|sub|] == sub) || (|s| > 0 && Includes(s[1..], sub))
  }

  /** `sub` occurs in `s` starting at position `i`. */
  predicate OccursAt(s: string, sub: string, i: int) {
    0 <= i <= |s| - |sub| && s[i..i + |sub|] == sub
  }

  /** `Includes` holds exactly when `sub` occurs at some position of `s`. */
  lemma {:induction false} IncludesOccurs(s: string, sub: string)
    ensures Includes(s, sub) <==> exists i :: OccursAt(s, sub, i)
  {
    if |sub| <= |s| && s[..|sub|] == sub {
      assert OccursAt(s, sub, 0);
    } else if |s| > 0 {
      IncludesOccurs(s[1..], sub);
      if Includes(s[1..], sub) {
        var i :| OccursAt(s[1..], sub, i);
        assert s[1..][i..i + |sub|] == s[i + 1..i + 1 + |sub|];
        assert OccursAt(s, sub, i + 1);
      }
      if exists i :: OccursAt(s, sub, i) {
        var i :| OccursAt(s, sub, i);
        assert i != 0;
        assert s[1..][i - 1..i - 1 + |sub|] == s[i..i + |sub|];
        assert OccursAt(s[1..], sub, i - 1);
      }
    }
  }

  // ---------------------------------------------------------------------------
  // The picker's search
  // ---------------------------------------------------------------------------

  /** The query as compared: `query.toLowerCase().trim()`. */
  function NormalizedQuery(query: string): string {
    Trim(ToLowerAscii(query))
  }

  /** A country is listed when its lower-cased name or code, or its calling code, contains `q`. */
  predicate MatchesQuery(c: Country, q: string) {
    Includes(ToLowerAscii(c.name), q) || Includes(ToLowerAscii(c.code), q) || Includes(c.callingCode, q)
  }

  /** The list the picker shows for the text in its search box. */
  function FilteredCountries(countries: seq<Country>, query: string): (r: seq<Country>)
    ensures AllWhitespace(query) ==> r == countries
    ensures |r| <= |countries|
  {
    if |Trim(query)| == 0 then countries
    else
      var q := NormalizedQuery(query);
      Filter(countries, c => MatchesQuery(c, q))
  }

  /** The search never reorders: its result is a subsequence of the table. */
  lemma {:induction false} SearchKeepsOrder(countries: seq<Country>, query: string)
    ensures IsSubsequence(FilteredCountries(countries, query), countries)
  {
    if |Trim(query)| == 0 {
      FilterIsSubsequence(countries, c => true);
      FilterFixedPoint(countries, c => true);
    } else {
      var q := NormalizedQuery(query);
      FilterIsSubsequence(countries, c => MatchesQuery(c, q));
    }
  }

  /**
   * For a query that is not blank, a country appears in the result exactly when it is in the
   * table and matches the normalised query, and as often as it appears in the table.
   */
  lemma {:induction false} SearchSelects(countries: seq<Country>, query: string, c: Country)
    requires !AllWhitespace(query)
    ensures c in FilteredCountries(countries, query) <==> c in countries && MatchesQuery(c, NormalizedQuery(query))
    ensures multiset(FilteredCountries(countries, query))[c] ==
      if MatchesQuery(c, NormalizedQuery(query)) then multiset(countries)[c] else 0
  {
    var q := NormalizedQuery(query);
    FilterMembership(countries, c' => MatchesQuery(c', q), c);
    FilterCount(countries, c' => MatchesQuery(c', q), c);
  }

  lemma {:induction false} TrimStartSkipsWhitespace(ws: string, s: string)
    requires AllWhitespace(ws)
    ensures TrimStart(ws + s) == TrimStart(s)
  {
    if |ws| > 0 {
      assert (ws + s)[1..] == ws[1..] + s;
      TrimStartSkipsWhitespace(ws[1..], s);
    } else {
      assert ws + s == s;
    }
  }

  lemma {:induction false} TrimEndSkipsWhitespace(s: string, ws: string)
    requires AllWhitespace(ws)
    ensures TrimEnd(s + ws) == TrimEnd(s)
  {
    if |ws| > 0 {
      assert (s + ws)[..|s + ws| - 1] == s + ws[..|ws| - 1];
      TrimEndSkipsWhitespace(s, ws[..|ws| - 1]);
    } else {
      assert s + ws == s;
    }
  }

  lemma {:induction false} TrimStartAppend(s: string, t: string)
    requires |TrimStart(s)| > 0
    ensures TrimStart(s + t) == TrimStart(s) + t
  {
    assert (s + t)[0] == s[0];
    if IsJsWhitespace(s[0]) {
      assert (s + t)[1..] == s[1..] + t;
      TrimStartAppend(s[1..], t);
    }
  }

  /** Surrounding whitespace does not change what `trim` returns. */
  lemma TrimIgnoresPadding(before: string, s: string, after: string)
    requires AllWhitespace(before) && AllWhitespace(after)
    ensures Trim(before + s + after) == Trim(s)
  {
    assert before + s + after == before + (s + after);
    TrimStartSkipsWhitespace(before, s + after);
    if |TrimStart(s)| > 0 {
      TrimStartAppend(s, after);
      TrimEndSkipsWhitespace(TrimStart(s), after);
    } else {
      assert AllWhitespace(s + after) by {
        assert s[..|s| - |TrimStart(s)|] == s;
      }
      assert |Trim(s + after)| == 0;
      assert |Trim(s)| == 0;
    }
  }

  lemma LowerKeepsWhitespace(s: string)
    ensures AllWhitespace(ToLowerAscii(s)) <==> AllWhitespace(s)
  {
    assert forall i :: 0 <= i < |s| ==> (IsJsWhitespace(ToLowerAscii(s)[i]) <==> IsJsWhitespace(s[i]));
  }

  lemma LowerDistributes(a: string, b: string)
    ensures ToLowerAscii(a + b) == ToLowerAscii(a) + ToLowerAscii(b)
  {
  }

  /** Whitespace around the query does not change the list. */
  lemma SearchIgnoresPadding(countries: seq<Country>, before: string, query: string, after: string)
    requires AllWhitespace(before) && AllWhitespace(after)
    ensures FilteredCountries(countries, before + query + after) == FilteredCountries(countries, query)
  {
    TrimIgnoresPadding(before, query, after);
    LowerDistributes(before + query, after);
    LowerDistributes(before, query);
    LowerKeepsWhitespace(before);
    LowerKeepsWhitespace(after);
    TrimIgnoresPadding(ToLowerAscii(before), ToLowerAscii(query), ToLowerAscii(after));
  }

  /** Queries that differ only in the case of ASCII letters give the same list. */
  lemma SearchIgnoresCase(countries: seq<Country>, query1: string, query2: string)
    requires ToLowerAscii(query1) == ToLowerAscii(query2)
    ensures FilteredCountries(countries, query1) == FilteredCountries(countries, query2)
  {
    LowerKeepsWhitespace(query1);
    LowerKeepsWhitespace(query2);
  }
}
