/**
 Label normalisation and coin-id resolution.

 A free-text ledger label such as "ERD (Elrond)" is cut at the first "(",
 stripped of surrounding whitespace, lower-cased and stripped of every
 character outside [A-Za-z0-9]. Resolution first consults a fixed override
 table with the argument exactly as given, then scans the catalog for the first
 entry whose lower-cased symbol equals the normalised label, and otherwise
 answers the sentinel "coin_not_found". Characters are taken to be ASCII.
 */
module Symbols {

  /** Sentinel returned when no override and no catalog entry matches. */
  const CoinNotFound: string := "coin_not_found"

  /** One entry of the coin catalog: canonical id and ticker symbol. */
  datatype CatalogEntry = CatalogEntry(id: string, symbol: string)

  /** ASCII whitespace: the characters the label trimming removes. */
  predicate IsSpace(c: char) {
    c == ' ' || (9 <= c as int <= 13) || (28 <= c as int <= 31)
  }

  /** ASCII letters and digits: the characters the normalisation filter keeps. */
  predicate IsAlnum(c: char) {
    ('a' <= c <= 'z') || ('A' <= c <= 'Z') || ('0' <= c <= '9')
  }

  /** What survives normalisation: lower-case letters and digits. */
  predicate IsNormalChar(c: char) {
    ('a' <= c <= 'z') || ('0' <= c <= '9')
  }

  predicate IsNormal(s: string) {
    forall i :: 0 <= i < |s| ==> IsNormalChar(s[i])
  }

  /** One character with ASCII upper case mapped to lower case. */
  function LowerChar(c: char): (r: char)
    ensures 'A' <= c <= 'Z' ==> 'a' <= r <= 'z'
    ensures !('A' <= c <= 'Z') ==> r == c
    ensures IsAlnum(c) <==> IsNormalChar(r)
    ensures IsSpace(c) ==> IsSpace(r)
  {
    if 'A' <= c <= 'Z' then (c as int + 32) as char else c
  }

  /** A string with ASCII upper case mapped to lower case. */
  function Lower(s: string): string
  {
    seq(|s|, i requires 0 <= i < |s| => LowerChar(s[i]))
  }

  /** Everything before the first "(", or all of `s` if it has none. */
  function BeforeParen(s: string): (r: string)
    ensures |r| <= |s| && r == s[..|r|]
    ensures '(' !in r
    ensures |r| < |s| ==> s[|r|] == '('
  {
    if |s| == 0 || s[0] == '(' then "" else [s[0]] + BeforeParen(s[1..])
  }

  /** Drop leading whitespace. */
  function StripLeft(s: string): string
  {
    if |s| > 0 && IsSpace(s[0]) then StripLeft(s[1..]) else s
  }

  /** Drop trailing whitespace. */
  function StripRight(s: string): string
  {
    if |s| > 0 && IsSpace(s[|s| - 1]) then StripRight(s[..|s| - 1]) else s
  }

  /** Left-stripping removes a maximal all-whitespace prefix and keeps the rest. */
  lemma {:induction false} StripLeftSpec(s: string)
    ensures |StripLeft(s)| <= |s| && StripLeft(s) == s[|s| - |StripLeft(s)|..]
    ensures forall i :: 0 <= i < |s| - |StripLeft(s)| ==> IsSpace(s[i])
    ensures |StripLeft(s)| > 0 ==> !IsSpace(StripLeft(s)[0])
  {
    if |s| > 0 && IsSpace(s[0]) {
      StripLeftSpec(s[1..]);
    }
  }

  /** Right-stripping removes a maximal all-whitespace suffix and keeps the rest. */
  lemma {:induction false} StripRightSpec(s: string)
    ensures |StripRight(s)| <= |s| && StripRight(s) == s[..|StripRight(s)|]
    ensures forall i :: |StripRight(s)| <= i < |s| ==> IsSpace(s[i])
    ensures |StripRight(s)| > 0 ==> !IsSpace(StripRight(s)[|StripRight(s)| - 1])
  {
    if |s| > 0 && IsSpace(s[|s| - 1]) {
      StripRightSpec(s[..|s| - 1]);
    }
  }

  /** Drop leading and trailing whitespace. */
  function Strip(s: string): string
  {
    StripRight(StripLeft(s))
  }

  /** Keep letters and digits only, in order. */
  function KeepAlnum(s: string): string
  {
    if |s| == 0 then ""
    else if IsAlnum(s[0]) then [s[0]] + KeepAlnum(s[1..])
    else KeepAlnum(s[1..])
  }

  /** `get_custom_mapped_value`: the normalised symbol of a ledger label. */
  function Normalize(raw: string): string
  {
    KeepAlnum(Lower(Strip(BeforeParen(raw))))
  }

  /** `get_name_from_map`: the override table, which maps "erd" to "elrond" and nothing else. */
  function NameFromMap(name: string): (r: string)
    ensures name == "erd" ==> r == "elrond"
    ensures name != "erd" ==> r == CoinNotFound
  {
    var nameMap := map["erd" := "elrond"];
    if name in nameMap then nameMap[name] else CoinNotFound
  }

  /** A catalog entry answers for `key` when its lower-cased symbol equals `key`. */
  predicate Matches(e: CatalogEntry, key: string) {
    Lower(e.symbol) == key
  }

  /** Linear scan of the catalog: the id of the first matching entry, else the sentinel. */
  function ScanCatalog(catalog: seq<CatalogEntry>, key: string): string
  {
    if |catalog| == 0 then CoinNotFound
    else if Matches(catalog[0], key) then catalog[0].id
    else ScanCatalog(catalog[1..], key)
  }

  /** Some catalog entry matches `key`. */
  predicate HasMatch(catalog: seq<CatalogEntry>, key: string)
  {
    exists i :: 0 <= i < |catalog| && Matches(catalog[i], key)
  }

  /** `i` is the first catalog index matching `key`. */
  predicate FirstMatchAt(catalog: seq<CatalogEntry>, key: string, i: int)
  {
    0 <= i < |catalog| && Matches(catalog[i], key) &&
    forall j :: 0 <= j < i ==> !Matches(catalog[j], key)
  }

  /** The scan answers the id of the first matching entry, and the sentinel when nothing matches. */
  lemma {:induction false} ScanCatalogFirstMatch(catalog: seq<CatalogEntry>, key: string)
    ensures HasMatch(catalog, key) ==>
      exists i :: FirstMatchAt(catalog, key, i) && ScanCatalog(catalog, key) == catalog[i].id
    ensures !HasMatch(catalog, key) ==> ScanCatalog(catalog, key) == CoinNotFound
  {
    if |catalog| > 0 && !Matches(catalog[0], key) {
      var rest := catalog[1..];
      ScanCatalogFirstMatch(rest, key);
      assert forall i :: 1 <= i < |catalog| ==> catalog[i] == rest[i - 1];
      if HasMatch(catalog, key) {
        var i :| 0 <= i < |catalog| && Matches(catalog[i], key);
        assert Matches(rest[i - 1], key);
        var k :| FirstMatchAt(rest, key, k) && ScanCatalog(rest, key) == rest[k].id;
        assert FirstMatchAt(catalog, key, k + 1);
      }
    } else if |catalog| > 0 {
      assert FirstMatchAt(catalog, key, 0);
    }
  }

  /**
   `get_coin_id_for_symbol`: the override table sees the argument as given; the
   catalog scan compares against the normalised name. An override hit wins over
   the catalog; among catalog entries the first match wins.
   */
  function Resolve(catalog: seq<CatalogEntry>, name: string): string
  {
    var customName := Normalize(name);
    var customId := NameFromMap(name);
    if customId != CoinNotFound then customId
    else ScanCatalog(catalog, Lower(customName))
  }

  /**
   Resolution in full: "erd" is answered by the override whatever the catalog
   holds; any other name gets the id of the first catalog entry whose
   lower-cased symbol equals the normalised name, or the sentinel.
   */
  lemma ResolveSpec(catalog: seq<CatalogEntry>, name: string)
    ensures name == "erd" ==> Resolve(catalog, name) == "elrond"
    ensures name != "erd" && HasMatch(catalog, Normalize(name)) ==>
      exists i :: FirstMatchAt(catalog, Normalize(name), i) && Resolve(catalog, name) == catalog[i].id
    ensures name != "erd" && !HasMatch(catalog, Normalize(name)) ==> Resolve(catalog, name) == CoinNotFound
  {
    if name != "erd" {
      var key := Normalize(name);
      NormalizeIsNormal(name);
      LowerOfNormal(key);
      ScanCatalogFirstMatch(catalog, key);
    }
  }

  /** Keeping letters and digits of a string without upper-case letters leaves only normal characters. */
  lemma {:induction false} KeepAlnumIsNormal(s: string)
    requires forall i :: 0 <= i < |s| ==> !('A' <= s[i] <= 'Z')
    ensures IsNormal(KeepAlnum(s))
  {
    if |s| > 0 {
      KeepAlnumIsNormal(s[1..]);
    }
  }

  /** A normalised symbol holds only lower-case ASCII letters and digits. */
  lemma NormalizeIsNormal(raw: string)
    ensures IsNormal(Normalize(raw))
  {
    KeepAlnumIsNormal(Lower(Strip(BeforeParen(raw))));
  }

  /** Lower-casing leaves a normalised string unchanged. */
  lemma LowerOfNormal(s: string)
    requires IsNormal(s)
    ensures Lower(s) == s
  {
  }

  /** Keeping letters and digits distributes over concatenation. */
  lemma {:induction false} KeepAlnumAppend(a: string, b: string)
    ensures KeepAlnum(a + b) == KeepAlnum(a) + KeepAlnum(b)
  {
    if |a| > 0 {
      assert (a + b)[1..] == a[1..] + b;
      KeepAlnumAppend(a[1..], b);
    } else {
      assert a + b == b;
    }
  }

  /** A string of letters and digits is its own `KeepAlnum`. */
  lemma {:induction false} KeepAlnumOfAlnum(s: string)
    requires forall i :: 0 <= i < |s| ==> IsAlnum(s[i])
    ensures KeepAlnum(s) == s
  {
    if |s| > 0 {
      KeepAlnumOfAlnum(s[1..]);
    }
  }

  /** Whitespace contributes nothing after lower-casing and filtering. */
  lemma {:induction false} KeepAlnumOfSpaces(s: string)
    requires forall i :: 0 <= i < |s| ==> IsSpace(s[i])
    ensures KeepAlnum(Lower(s)) == ""
  {
    if |s| > 0 {
      assert Lower(s)[1..] == Lower(s[1..]);
      KeepAlnumOfSpaces(s[1..]);
    }
  }

  /**
   A reference definition of normalisation without the whitespace strip: the
   letter-and-digit filter removes whitespace anyway, so trimming never changes the result.
   */
  lemma StripIsRedundant(raw: string)
    ensures Normalize(raw) == KeepAlnum(Lower(BeforeParen(raw)))
  {
    StripLeftFiltered(BeforeParen(raw));
    StripRightFiltered(StripLeft(BeforeParen(raw)));
  }

  lemma StripLeftFiltered(s: string)
    ensures KeepAlnum(Lower(StripLeft(s))) == KeepAlnum(Lower(s))
  {
    StripLeftSpec(s);
    var l := StripLeft(s);
    var front := s[..|s| - |l|];
    assert s == front + l;
    FilteredLowerAppend(front, l);
    KeepAlnumOfSpaces(front);
  }

  lemma StripRightFiltered(s: string)
    ensures KeepAlnum(Lower(StripRight(s))) == KeepAlnum(Lower(s))
  {
    StripRightSpec(s);
    var r := StripRight(s);
    var back := s[|r|..];
    assert s == r + back;
    FilteredLowerAppend(r, back);
    KeepAlnumOfSpaces(back);
  }

  /** Lower-casing then filtering distributes over concatenation. */
  lemma FilteredLowerAppend(a: string, b: string)
    ensures KeepAlnum(Lower(a + b)) == KeepAlnum(Lower(a)) + KeepAlnum(Lower(b))
  {
    assert Lower(a + b) == Lower(a) + Lower(b);
    KeepAlnumAppend(Lower(a), Lower(b));
  }

  /** Normalising twice is normalising once. */
  lemma NormalizeIdempotent(raw: string)
    ensures Normalize(Normalize(raw)) == Normalize(raw)
  {
    NormalizeIsNormal(raw);
    NormalIsFixed(Normalize(raw));
  }

  /**
   Normalisation in full: the result holds only lower-case letters and digits;
   it is the lower-cased letters and digits of the text before the first "(",
   so trimming never matters and nothing after the parenthesis does; and it is
   its own normal form.
   */
  lemma NormalizeSpec(raw: string)
    ensures IsNormal(Normalize(raw))
    ensures Normalize(raw) == KeepAlnum(Lower(BeforeParen(raw)))
    ensures Normalize(raw) == Normalize(BeforeParen(raw))
    ensures Normalize(Normalize(raw)) == Normalize(raw)
  {
    var head := BeforeParen(raw);
    NormalizeIsNormal(raw);
    StripIsRedundant(raw);
    StripIsRedundant(head);
    assert BeforeParen(head) == head;
    NormalizeIdempotent(raw);
  }

  /** A string of lower-case letters and digits normalises to itself. */
  lemma NormalIsFixed(n: string)
    requires IsNormal(n)
    ensures Normalize(n) == n
  {
    StripIsRedundant(n);
    assert BeforeParen(n) == n;
    LowerOfNormal(n);
    KeepAlnumOfAlnum(n);
  }

  lemma LowerERD()
    ensures Lower("ERD") == "erd"
    ensures Lower("erd") == "erd"
  {
    assert LowerChar('E') == 'e' && LowerChar('R') == 'r' && LowerChar('D') == 'd';
    assert LowerChar('e') == 'e' && LowerChar('r') == 'r' && LowerChar('d') == 'd';
  }

  lemma BeforeParenERD()
    ensures BeforeParen("ERD (Elrond)") == "ERD "
    ensures BeforeParen("ERD") == "ERD"
    ensures BeforeParen("erd") == "erd"
  {
    assert "ERD (Elrond)"[1..] == "RD (Elrond)";
    assert "RD (Elrond)"[1..] == "D (Elrond)";
    assert "D (Elrond)"[1..] == " (Elrond)";
    assert " (Elrond)"[1..] == "(Elrond)";
    assert BeforeParen(" (Elrond)") == " ";
    assert "ERD"[1..] == "RD" && "RD"[1..] == "D" && "D"[1..] == "";
    assert "erd"[1..] == "rd" && "rd"[1..] == "d" && "d"[1..] == "";
  }

  /** "ERD (Elrond)" normalises to "erd": the annotation in parentheses and the space are dropped. */
  lemma NormalizeAnnotated()
    ensures Normalize("ERD (Elrond)") == "erd"
  {
    StripIsRedundant("ERD (Elrond)");
    BeforeParenERD();
    FilteredERDSpace();
  }

  lemma FilteredERDSpace()
    ensures KeepAlnum(Lower("ERD ")) == "erd"
  {
    assert "ERD" + " " == "ERD ";
    FilteredLowerAppend("ERD", " ");
    assert KeepAlnum(Lower("ERD")) == "erd" by {
      LowerERD();
      KeepAlnumErd();
    }
    assert KeepAlnum(Lower(" ")) == "" by {
      KeepAlnumOfSpaces(" ");
    }
  }

  /** Case variants normalise alike: "ERD" gives "erd" ... */
  lemma NormalizeUpperCase()
    ensures Normalize("ERD") == "erd"
  {
    StripIsRedundant("ERD");
    BeforeParenERD();
    LowerERD();
    KeepAlnumErd();
  }

  lemma KeepAlnumErd()
    ensures KeepAlnum("erd") == "erd"
  {
    assert "erd"[1..] == "rd" && "rd"[1..] == "d" && "d"[1..] == "";
  }

  /**
   Any label that normalises to "erd" (for example "ERD (Elrond)") resolves to
   "elrond" once its normalised form is passed in, whatever the catalog holds.
   */
  lemma AliasResolvesThroughNormalForm(catalog: seq<CatalogEntry>, raw: string)
    requires Normalize(raw) == "erd"
    ensures Resolve(catalog, Normalize(raw)) == "elrond"
  {
  }

  /**
   The raw label "ERD" does not hit the override table, which compares the
   argument before normalisation: against an empty catalog it is not found,
   while its normalised form resolves to "elrond".
   */
  lemma RawLabelBypassesOverride()
    ensures Resolve([], "ERD") == CoinNotFound
    ensures Resolve([], Normalize("ERD")) == "elrond"
  {
    assert Resolve([], "ERD") == CoinNotFound by {
      assert NameFromMap("ERD") == CoinNotFound;
    }
    NormalizeUpperCase();
  }
}
