/**
  The tenant-id validator (tenant.py) and the resolver that turns an id into a schema name (db.py).
 */
module Tenants {

  const PREFIX := "tenant"

  const DANGEROUS: seq<string> := [
    "`", "'", "\"", ";", "--", "/*", "*/",
    "UNION", "SELECT", "DROP", "INSERT", "UPDATE", "DELETE", "WHERE", "FROM", "TABLE", "DATABASE"
  ]

  // ---------------------------------------------------------------- strings

  predicate StartsWith(s: string, p: string) {
    |p| <= |s| && s[..|p|] == p
  }

  /** An id without its prefix, if it has it. */
  function Bare(id: string): string {
    if StartsWith(id, PREFIX) then id[|PREFIX|..] else id
  }

  predicate OccursAt(s: string, p: string, i: nat) {
    i + |p| <= |s| && s[i..i + |p|] == p
  }

  predicate Contains(s: string, p: string) {
    exists i :: 0 <= i <= |s| && OccursAt(s, p, i)
  }

  function UpperChar(c: char): char {
    if 'a' <= c <= 'z' then c - ('a' - 'A') else c
  }

  /** `str.upper`, for the ASCII text that passes the format layer. */
  function Upper(s: string): (r: string)
    ensures |r| == |s|
  {
    seq(|s|, i requires 0 <= i < |s| => UpperChar(s[i]))
  }

  // ---------------------------------------------------------------- the validator

  predicate IsAlnum(c: char) {
    'a' <= c <= 'z' || 'A' <= c <= 'Z' || '0' <= c <= '9'
  }

  predicate IsHex(c: char) {
    'a' <= c <= 'f' || 'A' <= c <= 'F' || '0' <= c <= '9'
  }

  predicate PrefixedBody(s: string) {
    StartsWith(s, PREFIX) && |PREFIX| < |s| && forall i :: |PREFIX| <= i < |s| ==> IsAlnum(s[i]) || s[i] == '-'
  }

  predicate DashAt(i: int) {
    i == 8 || i == 13 || i == 18 || i == 23
  }

  predicate UuidBody(s: string) {
    |s| == 36 && forall i :: 0 <= i < |s| ==> if DashAt(i) then s[i] == '-' else IsHex(s[i])
  }

  /** Python's `$` matches at the end, and also before one newline at the end: the text matched up to there. */
  predicate EndsInNewline(s: string) {
    s != "" && s[|s| - 1] == '\n'
  }

  predicate MatchesPrefixed(s: string) {
    PrefixedBody(s) || (EndsInNewline(s) && PrefixedBody(s[..|s| - 1]))
  }

  predicate MatchesUuid(s: string) {
    UuidBody(s) || (EndsInNewline(s) && UuidBody(s[..|s| - 1]))
  }

  predicate Dangerous(id: string) {
    exists p :: p in DANGEROUS && Contains(Upper(id), p)
  }

  datatype Reason = Missing | NotInWhitelist | BadFormat | BadLength | DangerousPattern

  datatype Verdict = Valid | Rejected(reason: Reason)

  /** The authoritative set, or `Unloaded` before the first discovery. */
  datatype Whitelist = Unloaded | Live(ids: set<string>)

  /** The checks that do not look at the whitelist: format, length, patterns. */
  function Layers(id: string): Verdict {
    if !MatchesPrefixed(id) && !MatchesUuid(id) then Rejected(BadFormat)
    else if |id| < 8 || 60 < |id| then Rejected(BadLength)
    else if Dangerous(id) then Rejected(DangerousPattern)
    else Valid
  }

  /** A rejection either raises or returns false, as the caller asks. */
  function Validate(id: string, known: Whitelist): Verdict {
    if id == "" then Rejected(Missing)
    else if known.Live? && Bare(id) !in known.ids && id !in known.ids then Rejected(NotInWhitelist)
    else Layers(id)
  }

  // ---------------------------------------------------------------- the resolver

  datatype Resolution = Schema(name: string) | Invalid(reason: Reason)

  function Resolve(tenants: set<string>, id: string): Resolution {
    match Validate(id, Live(tenants))
    case Rejected(reason) => Invalid(reason)
    case Valid => Schema(PREFIX + Bare(id))
  }

  function LiveIds(rows: set<string>): set<string> {
    set row | row in rows :: Bare(row)
  }

  function RowSet(rows: seq<string>): set<string> {
    set row | row in rows
  }

  /** The default discovery: the rows of SHOW DATABASES, each without its prefix. */
  method DiscoverDefault(rows: seq<string>) returns (names: set<string>)
    ensures names == LiveIds(RowSet(rows))
  {
    names := {};
    for i := 0 to |rows|
      invariant names == LiveIds(RowSet(rows[..i]))
    {
      var name := rows[i];
      assert rows[..i + 1] == rows[..i] + [name];
      assert RowSet(rows[..i + 1]) == RowSet(rows[..i]) + {name};
      names := names + {if StartsWith(name, PREFIX) then name[|PREFIX|..] else name};
    }
    assert rows[..|rows|] == rows;
  }

  lemma PrefixThenBare(bare: string)
    ensures StartsWith(PREFIX + bare, PREFIX) && Bare(PREFIX + bare) == bare
  {
    assert (PREFIX + bare)[..|PREFIX|] == PREFIX;
  }

  lemma BareOfPrefixed(id: string)
    requires StartsWith(id, PREFIX)
    ensures PREFIX + Bare(id) == id
  {
  }

  // ---------------------------------------------------------------- a UUID never trips a later layer

  /** Whatever a UUID, its prefixed form and a final newline can contain, in upper case. */
  predicate UuidLetter(c: char) {
    '0' <= c <= '9' || 'A' <= c <= 'F' || c in "TN-\n"
  }

  /** Every pattern but the double dash has a letter that no prefixed UUID contains. */
  function ForeignAt(p: string): (k: nat)
    requires p in DANGEROUS && p != "--"
    ensures k < |p| && !UuidLetter(p[k])
  {
    if p == "UNION" || p == "UPDATE" || p == "SELECT" || p == "INSERT" || p == "WHERE" || |p| == 1 then 0
    else if p == "DROP" || p == "FROM" then 1
    else if p == "DELETE" then 2
    else if p == "TABLE" then 3
    else if p == "DATABASE" then 6
    else if p == "/*" then 0 else 1
  }

  lemma NoForeignPattern(up: string, p: string)
    requires forall i :: 0 <= i < |up| ==> UuidLetter(up[i])
    requires p in DANGEROUS && p != "--"
    ensures !Contains(up, p)
  {
    var k := ForeignAt(p);
    forall i: nat | i + |p| <= |up| ensures !OccursAt(up, p, i) {
      assert up[i..i + |p|][k] == up[i + k];
    }
  }

  lemma NoDoubleDash(up: string)
    requires forall i :: 0 <= i < |up| - 1 ==> !(up[i] == '-' && up[i + 1] == '-')
    ensures !Contains(up, "--")
  {
    forall i: nat | i + 2 <= |up| ensures !OccursAt(up, "--", i) {
      assert up[i..i + 2][0] == up[i] && up[i..i + 2][1] == up[i + 1];
    }
  }

  lemma HarmlessText(id: string)
    requires forall i :: 0 <= i < |id| ==> UuidLetter(UpperChar(id[i]))
    requires forall i :: 0 <= i < |id| - 1 ==> !(id[i] == '-' && id[i + 1] == '-')
    ensures !Dangerous(id)
  {
    var up := Upper(id);
    assert forall i :: 0 <= i < |up| ==> (up[i] == '-' <==> id[i] == '-');
    NoDoubleDash(up);
    forall p | p in DANGEROUS ensures !Contains(up, p) {
      if p != "--" {
        NoForeignPattern(up, p);
      }
    }
  }

  /** The text of a UUID: legal letters only, no two dashes in a row, 36 characters and perhaps a newline. */
  lemma UuidText(id: string)
    requires MatchesUuid(id)
    ensures 36 <= |id| <= 37 && IsHex(id[0])
    ensures forall i :: 0 <= i < |id| ==> UuidLetter(UpperChar(id[i])) && (id[i] == '-' <==> DashAt(i))
  {
  }

  lemma PrefixedUuidFormat(id: string)
    requires MatchesUuid(id)
    ensures MatchesPrefixed(PREFIX + id)
  {
    var long := PREFIX + id;
    assert long[..|PREFIX|] == PREFIX;
    if UuidBody(id) {
      assert PrefixedBody(long);
    } else {
      assert long[..|long| - 1] == PREFIX + id[..|id| - 1];
      assert PrefixedBody(long[..|long| - 1]);
    }
  }

  lemma PrefixedUuidHarmless(id: string)
    requires MatchesUuid(id)
    ensures !Dangerous(PREFIX + id)
  {
    UuidText(id);
    var long := PREFIX + id;
    forall i | 0 <= i < |long| ensures UuidLetter(UpperChar(long[i])) && (long[i] == '-' <==> DashAt(i - |PREFIX|)) {
      if |PREFIX| <= i {
        assert long[i] == id[i - |PREFIX|];
      }
    }
    HarmlessText(long);
  }

  /** A UUID passes all layers, and so does its prefixed form: the join creates no pattern, the length stays legal. */
  lemma UuidPassesEitherWay(id: string)
    requires MatchesUuid(id)
    ensures !StartsWith(id, PREFIX)
    ensures Layers(id) == Valid && Layers(PREFIX + id) == Valid
  {
    UuidText(id);
    assert id[0] != 't';
    HarmlessText(id);
    PrefixedUuidFormat(id);
    PrefixedUuidHarmless(id);
  }

  // ---------------------------------------------------------------- what the layers come to

  const KEYWORDS: seq<string> := [
    "UNION", "SELECT", "DROP", "INSERT", "UPDATE", "DELETE", "WHERE", "FROM", "TABLE", "DATABASE"
  ]

  predicate HasKeyword(id: string) {
    exists p :: p in KEYWORDS && Contains(Upper(id), p)
  }

  predicate PlainLetter(c: char) {
    IsAlnum(c) || c in "-\n"
  }

  /** The patterns other than the double dash and the keywords cannot occur in text of the right format. */
  lemma PunctuationNeverFires(id: string, p: string)
    requires forall i :: 0 <= i < |id| ==> PlainLetter(id[i])
    requires p in DANGEROUS && p !in KEYWORDS && p != "--"
    ensures !Contains(Upper(id), p)
  {
    var up := Upper(id);
    assert !PlainLetter(p[0]) && forall i :: 0 <= i < |up| ==> PlainLetter(up[i]);
    forall i: nat | i + |p| <= |up| ensures !OccursAt(up, p, i) {
      assert up[i..i + |p|][0] == up[i];
    }
  }

  lemma DangerousMeans(id: string)
    requires forall i :: 0 <= i < |id| ==> PlainLetter(id[i])
    ensures Dangerous(id) <==> Contains(Upper(id), "--") || HasKeyword(id)
  {
    forall p | p in DANGEROUS && p !in KEYWORDS && p != "--" ensures !Contains(Upper(id), p) {
      PunctuationNeverFires(id, p);
    }
    assert DANGEROUS == DANGEROUS[..4] + ["--", "/*", "*/"] + KEYWORDS;
  }

  // ---------------------------------------------------------------- the layers in plain terms

  const HEX_DIGITS := "0123456789abcdefABCDEF"
  const SMALL_LETTERS := "abcdefghijklmnopqrstuvwxyz"
  const CAPITALS := "ABCDEFGHIJKLMNOPQRSTUVWXYZ"
  const DIGITS := "0123456789"

  predicate HexRun(s: string, n: nat) {
    |s| == n && forall i :: 0 <= i < n ==> s[i] in HEX_DIGITS
  }

  predicate NameText(s: string) {
    forall i :: 0 <= i < |s| ==> s[i] in SMALL_LETTERS || s[i] in CAPITALS || s[i] in DIGITS || s[i] == '-'
  }

  /** Five runs of hexadecimal digits, of lengths 8, 4, 4, 4 and 12, joined by dashes. */
  ghost predicate IsUuid(s: string) {
    exists a, b, c, d, e :: Groups(s, a, b, c, d, e)
  }

  ghost predicate Groups(s: string, a: string, b: string, c: string, d: string, e: string) {
    && HexRun(a, 8) && HexRun(b, 4) && HexRun(c, 4) && HexRun(d, 4) && HexRun(e, 12)
    && s == a + "-" + b + "-" + c + "-" + d + "-" + e
  }

  /** The prefix and at least one more letter, digit or dash. */
  ghost predicate IsPrefixedName(s: string) {
    exists rest :: s == "tenant" + rest && rest != "" && NameText(rest)
  }

  /** `s` without a newline at its end, if it has one there. */
  function Chomp(s: string): string {
    if s != "" && s[|s| - 1] == '\n' then s[..|s| - 1] else s
  }

  lemma HexDigits(c: char)
    ensures IsHex(c) <==> c in HEX_DIGITS
  {
    if IsHex(c) {
      var k := if '0' <= c <= '9' then c as int - '0' as int
               else if 'a' <= c <= 'f' then 10 + (c as int - 'a' as int) else 16 + (c as int - 'A' as int);
      assert HEX_DIGITS[k] == c;
    }
  }

  lemma SmallLetters(c: char)
    ensures 'a' <= c <= 'z' <==> c in SMALL_LETTERS
  {
    if 'a' <= c <= 'z' {
      assert SMALL_LETTERS[c as int - 'a' as int] == c;
    }
  }

  lemma Capitals(c: char)
    ensures 'A' <= c <= 'Z' <==> c in CAPITALS
  {
    if 'A' <= c <= 'Z' {
      assert CAPITALS[c as int - 'A' as int] == c;
    }
  }

  lemma Digits(c: char)
    ensures '0' <= c <= '9' <==> c in DIGITS
  {
    if '0' <= c <= '9' {
      assert DIGITS[c as int - '0' as int] == c;
    }
  }

  predicate Hexadecimal(s: string) {
    forall i :: 0 <= i < |s| ==> IsHex(s[i])
  }

  predicate NameLetters(s: string) {
    forall i :: 0 <= i < |s| ==> IsAlnum(s[i]) || s[i] == '-'
  }

  lemma HexRunIs(s: string)
    ensures HexRun(s, |s|) <==> Hexadecimal(s)
  {
    forall i | 0 <= i < |s| ensures IsHex(s[i]) <==> s[i] in HEX_DIGITS {
      HexDigits(s[i]);
    }
  }

  lemma NameTextIs(s: string)
    ensures NameText(s) <==> NameLetters(s)
  {
    forall i | 0 <= i < |s|
      ensures IsAlnum(s[i]) <==> s[i] in SMALL_LETTERS || s[i] in CAPITALS || s[i] in DIGITS
    {
      SmallLetters(s[i]);
      Capitals(s[i]);
      Digits(s[i]);
    }
  }

  lemma UuidHasGroups(s: string)
    requires UuidBody(s)
    ensures IsUuid(s)
  {
    var a, b, c, d, e := s[..8], s[9..13], s[14..18], s[19..23], s[24..];
    HexRunIs(a);
    HexRunIs(b);
    HexRunIs(c);
    HexRunIs(d);
    HexRunIs(e);
    assert s == a + "-" + b + "-" + c + "-" + d + "-" + e;
    assert Groups(s, a, b, c, d, e);
  }

  lemma GroupsAreUuid(s: string, a: string, b: string, c: string, d: string, e: string)
    requires Groups(s, a, b, c, d, e)
    ensures UuidBody(s)
  {
    HexRunIs(a);
    HexRunIs(b);
    HexRunIs(c);
    HexRunIs(d);
    HexRunIs(e);
    assert s[..8] == a && s[9..13] == b && s[14..18] == c && s[19..23] == d && s[24..] == e;
    forall i | 0 <= i < |s| ensures if DashAt(i) then s[i] == '-' else IsHex(s[i]) {
      GroupAt(s, i);
    }
  }

  /** Where position `i` of a text of 36 characters lies. */
  lemma GroupAt(s: string, i: nat)
    requires i < |s| == 36
    ensures i < 8 ==> s[i] == s[..8][i]
    ensures 9 <= i < 13 ==> s[i] == s[9..13][i - 9]
    ensures 14 <= i < 18 ==> s[i] == s[14..18][i - 14]
    ensures 19 <= i < 23 ==> s[i] == s[19..23][i - 19]
    ensures 24 <= i ==> s[i] == s[24..][i - 24]
  {
  }

  lemma UuidBodyIs(s: string)
    ensures UuidBody(s) <==> IsUuid(s)
  {
    if UuidBody(s) {
      UuidHasGroups(s);
    }
    if IsUuid(s) {
      var a, b, c, d, e :| Groups(s, a, b, c, d, e);
      GroupsAreUuid(s, a, b, c, d, e);
    }
  }

  lemma PrefixedBodyIs(s: string)
    ensures PrefixedBody(s) <==> IsPrefixedName(s)
  {
    if PrefixedBody(s) {
      var rest := s[6..];
      assert s == "tenant" + rest;
      NameTextIs(rest);
    }
    if IsPrefixedName(s) {
      var rest :| s == "tenant" + rest && rest != "" && NameText(rest);
      NameTextIs(rest);
      assert s[..6] == "tenant";
      forall i | 6 <= i < |s| ensures IsAlnum(s[i]) || s[i] == '-' {
        assert s[i] == rest[i - 6];
      }
    }
  }

  /** From position `i` on, `id` reads as the keyword, each letter in either case. */
  predicate ReadsAs(id: string, keyword: string, i: nat) {
    && i + |keyword| <= |id|
    && forall j :: 0 <= j < |keyword| ==>
         id[i + j] == keyword[j] || id[i + j] as int == keyword[j] as int + ('a' as int - 'A' as int)
  }

  predicate ReadsAsSome(id: string) {
    exists p, i: nat :: p in KEYWORDS && i <= |id| && ReadsAs(id, p, i)
  }

  predicate DashDash(id: string) {
    exists i :: 0 < i < |id| && id[i] == '-' && id[i - 1] == '-'
  }

  lemma KeywordLetters(p: string, j: nat)
    requires p in KEYWORDS && j < |p|
    ensures 'A' <= p[j] <= 'Z'
  {
  }

  lemma OccursIffReads(id: string, p: string, i: nat)
    requires p in KEYWORDS
    ensures OccursAt(Upper(id), p, i) <==> ReadsAs(id, p, i)
  {
    var up := Upper(id);
    if i + |p| <= |id| {
      forall j | 0 <= j < |p|
        ensures up[i..i + |p|][j] == p[j] <==>
                id[i + j] == p[j] || id[i + j] as int == p[j] as int + ('a' as int - 'A' as int)
      {
        KeywordLetters(p, j);
        assert up[i..i + |p|][j] == UpperChar(id[i + j]);
      }
    }
  }

  lemma HasKeywordIff(id: string)
    ensures HasKeyword(id) <==> ReadsAsSome(id)
  {
    if HasKeyword(id) {
      var p :| p in KEYWORDS && Contains(Upper(id), p);
      var i :| 0 <= i <= |Upper(id)| && OccursAt(Upper(id), p, i);
      OccursIffReads(id, p, i);
    }
    if ReadsAsSome(id) {
      var p, i: nat :| p in KEYWORDS && i <= |id| && ReadsAs(id, p, i);
      OccursIffReads(id, p, i);
    }
  }

  lemma DashDashIff(id: string)
    ensures Contains(Upper(id), "--") <==> DashDash(id)
  {
    var up := Upper(id);
    assert forall i :: 0 <= i < |id| ==> (up[i] == '-' <==> id[i] == '-');
    if Contains(up, "--") {
      var i :| 0 <= i <= |up| && OccursAt(up, "--", i);
      assert up[i..i + 2][0] == up[i] && up[i..i + 2][1] == up[i + 1];
      assert id[i + 1] == '-' && id[i + 1 - 1] == '-';
    }
    if DashDash(id) {
      var i :| 0 < i < |id| && id[i] == '-' && id[i - 1] == '-';
      assert up[i - 1..i + 1] == "--";
      assert OccursAt(up, "--", i - 1);
    }
  }

  /**
    What the layers after the whitelist accept, but for one newline at the end: every UUID, in either letter case,
    and those prefixed names of 8 to 60 characters which have neither two dashes in a row nor a keyword in any case;
    the other patterns never decide.
   */
  ghost predicate Acceptable(id: string) {
    || IsUuid(id) || IsUuid(Chomp(id))
    || ((IsPrefixedName(id) || IsPrefixedName(Chomp(id))) && 8 <= |id| <= 60 && !DashDash(id) && !ReadsAsSome(id))
  }

  lemma FormatsAre(id: string)
    ensures MatchesUuid(id) <==> IsUuid(id) || IsUuid(Chomp(id))
    ensures MatchesPrefixed(id) <==> IsPrefixedName(id) || IsPrefixedName(Chomp(id))
  {
    UuidBodyIs(id);
    UuidBodyIs(Chomp(id));
    PrefixedBodyIs(id);
    PrefixedBodyIs(Chomp(id));
  }

  lemma LayersExactly(id: string)
    ensures Layers(id) == Valid <==> Acceptable(id)
  {
    FormatsAre(id);
    HasKeywordIff(id);
    DashDashIff(id);
    if MatchesUuid(id) {
      UuidPassesEitherWay(id);
    } else if MatchesPrefixed(id) {
      PrefixedCharacters(id);
      DangerousMeans(id);
    }
  }

  /** The id, bare or with the prefix, is among the live ones, or nothing has been discovered yet. */
  ghost predicate Known(id: string, known: Whitelist) {
    known.Live? ==> id in known.ids || exists bare :: bare in known.ids && id == "tenant" + bare
  }

  /**
    Exactly which ids are accepted, also before the first discovery; and the reason of a rejection is the first that
    applies: no id, not known, neither form, the length, a pattern.
   */
  lemma ValidateExactly(id: string, known: Whitelist)
    ensures Validate(id, known) == Valid <==> id != "" && Known(id, known) && Acceptable(id)
    ensures Validate(id, known) == Rejected(Missing) <==> id == ""
    ensures Validate(id, known) == Rejected(NotInWhitelist) <==> id != "" && !Known(id, known)
    ensures id != "" && Known(id, known) ==>
              var formed := IsUuid(id) || IsUuid(Chomp(id)) || IsPrefixedName(id) || IsPrefixedName(Chomp(id));
              && (Validate(id, known) == Rejected(BadFormat) <==> !formed)
              && (Validate(id, known) == Rejected(BadLength) <==> formed && !(8 <= |id| <= 60))
  {
    LayersExactly(id);
    FormatsAre(id);
    KnownIff(id, known);
  }

  lemma KnownIff(id: string, known: Whitelist)
    ensures Known(id, known) <==> (known.Live? ==> Bare(id) in known.ids || id in known.ids)
  {
    if StartsWith(id, PREFIX) {
      BareOfPrefixed(id);
      assert id == "tenant" + Bare(id);
    }
    if known.Live? {
      forall bare | bare in known.ids && id == "tenant" + bare ensures Bare(id) in known.ids {
        PrefixThenBare(bare);
      }
    }
  }

  // ---------------------------------------------------------------- what resolve guarantees

  /** What resolves is accepted again, and resolves to itself. */
  lemma ResolveClosed(tenants: set<string>, id: string)
    requires Resolve(tenants, id).Schema?
    ensures var name := Resolve(tenants, id).name;
            Validate(name, Live(tenants)) == Valid && Resolve(tenants, name) == Schema(name)
  {
    PrefixThenBare(Bare(id));
    if StartsWith(id, PREFIX) {
      BareOfPrefixed(id);
    } else {
      assert |PREFIX| < |id| ==> id[..|id| - 1][..|PREFIX|] == id[..|PREFIX|];
      UuidPassesEitherWay(id);
    }
  }

  /** Two accepted ids name one schema exactly when their bare forms agree. */
  lemma SameSchemaSameBare(tenants: set<string>, id: string, id': string)
    requires Resolve(tenants, id).Schema? && Resolve(tenants, id').Schema?
    ensures Resolve(tenants, id) == Resolve(tenants, id') <==> Bare(id) == Bare(id')
  {
    PrefixThenBare(Bare(id));
    PrefixThenBare(Bare(id'));
  }

  /** A discovered row that passes the other layers resolves to itself. */
  lemma RowResolvesToItself(rows: set<string>, row: string)
    requires row in rows && StartsWith(row, PREFIX) && Layers(row) == Valid
    ensures Resolve(LiveIds(rows), row) == Schema(row)
  {
    assert Bare(row) in LiveIds(rows);
    BareOfPrefixed(row);
  }

  /** The bare UUID of a live tenant resolves to its row. */
  lemma UuidResolvesToItsRow(rows: set<string>, uuid: string)
    requires MatchesUuid(uuid) && PREFIX + uuid in rows
    ensures Resolve(LiveIds(rows), uuid) == Schema(PREFIX + uuid)
  {
    UuidPassesEitherWay(uuid);
    PrefixThenBare(uuid);
    assert Bare(PREFIX + uuid) in LiveIds(rows);
  }

  /** Every schema that anybody can resolve is one of the discovered rows. */
  ghost predicate Sound(rows: set<string>) {
    forall id :: Resolve(LiveIds(rows), id).Schema? ==> Resolve(LiveIds(rows), id).name in rows
  }

  /**
    What a row must satisfy for that.  Without the prefix, it must not be acceptable itself or with the prefix added;
    with the prefix twice, the rest must not be acceptable; unless the schema that would result is live anyway.
   */
  predicate RowHarmless(rows: set<string>, row: string) {
    if StartsWith(row, PREFIX) then
      StartsWith(Bare(row), PREFIX) && Layers(Bare(row)) == Valid ==> Bare(row) in rows
    else
      Layers(row) == Valid || Layers(PREFIX + row) == Valid ==> PREFIX + row in rows
  }

  lemma HarmlessIfSound(rows: set<string>, row: string)
    requires Sound(rows) && row in rows
    ensures RowHarmless(rows, row)
  {
    var live := LiveIds(rows);
    assert Bare(row) in live;
    if StartsWith(row, PREFIX) {
      var inner := Bare(row);
      if StartsWith(inner, PREFIX) && Layers(inner) == Valid {
        BareOfPrefixed(inner);
        assert Resolve(live, inner) == Schema(inner);
      }
    } else {
      PrefixThenBare(row);
      if Layers(row) == Valid {
        assert Resolve(live, row) == Schema(PREFIX + row);
      }
      if Layers(PREFIX + row) == Valid {
        assert Resolve(live, PREFIX + row) == Schema(PREFIX + row);
      }
    }
  }

  lemma ResolvedIsRow(rows: set<string>, id: string)
    requires forall row :: row in rows ==> RowHarmless(rows, row)
    requires Resolve(LiveIds(rows), id).Schema?
    ensures Resolve(LiveIds(rows), id).name in rows
  {
    if id in LiveIds(rows) {
      LiveInBareForm(rows, id);
    }
    var row :| row in rows && Bare(row) == Bare(id);
    assert RowHarmless(rows, row);
    if StartsWith(row, PREFIX) {
      BareOfPrefixed(row);
    } else if StartsWith(id, PREFIX) {
      BareOfPrefixed(id);
    }
  }

  /** With harmless rows, whatever is live as it stands is also live in its bare form. */
  lemma LiveInBareForm(rows: set<string>, id: string)
    requires forall row :: row in rows ==> RowHarmless(rows, row)
    requires id in LiveIds(rows) && Layers(id) == Valid
    ensures Bare(id) in LiveIds(rows)
  {
    if StartsWith(id, PREFIX) {
      var row :| row in rows && Bare(row) == id;
      assert RowHarmless(rows, row);
      assert id in rows;
    }
  }

  /** Soundness of the resolver: it holds for a set of rows if and only if every row is harmless. */
  lemma SoundIffHarmless(rows: set<string>)
    ensures Sound(rows) <==> forall row :: row in rows ==> RowHarmless(rows, row)
  {
    if Sound(rows) {
      forall row | row in rows ensures RowHarmless(rows, row) {
        HarmlessIfSound(rows, row);
      }
    }
    if forall row :: row in rows ==> RowHarmless(rows, row) {
      forall id | Resolve(LiveIds(rows), id).Schema? ensures Resolve(LiveIds(rows), id).name in rows {
        ResolvedIsRow(rows, id);
      }
    }
  }

  /** In particular it holds when every row carries the prefix exactly once. */
  lemma SoundForSinglePrefix(rows: set<string>)
    requires forall row :: row in rows ==> StartsWith(row, PREFIX) && !StartsWith(Bare(row), PREFIX)
    ensures Sound(rows)
  {
    SoundIffHarmless(rows);
  }

  /** And it fails for a single row with the prefix twice. */
  lemma DoublePrefixUnsound()
    ensures !Sound({"tenanttenant01"})
    ensures Resolve(LiveIds({"tenanttenant01"}), "tenant01") == Schema("tenant01")
  {
    var row := "tenanttenant01";
    var inner := "tenant01";
    assert row == PREFIX + inner;
    PrefixThenBare(inner);
    assert Bare(row) in LiveIds({row});
    assert inner[..|PREFIX|] == PREFIX;
    assert PrefixedBody(inner);
    assert !Dangerous(inner) by {
      HarmlessText(inner);
    }
    BareOfPrefixed(inner);
    assert Resolve(LiveIds({row}), inner) == Schema(inner);
  }

  /** A resolved name consists of letters, digits and dashes, except that it may end in one newline. */
  lemma ResolvedCharacters(tenants: set<string>, id: string)
    requires Resolve(tenants, id).Schema?
    ensures var name := Resolve(tenants, id).name;
            forall i :: 0 <= i < |name| ==>
              IsAlnum(name[i]) || name[i] == '-' || (i == |name| - 1 && name[i] == '\n')
  {
    ResolveClosed(tenants, id);
    var name := Resolve(tenants, id).name;
    PrefixThenBare(Bare(id));
    assert name[0] == PREFIX[0];
    PrefixedCharacters(name);
  }

  lemma PrefixedCharacters(name: string)
    requires MatchesPrefixed(name)
    ensures forall i :: 0 <= i < |name| ==>
              IsAlnum(name[i]) || name[i] == '-' || (i == |name| - 1 && name[i] == '\n')
  {
    var body := if PrefixedBody(name) then name else name[..|name| - 1];
    forall i | 0 <= i < |body| ensures IsAlnum(body[i]) || body[i] == '-' {
      if i < |PREFIX| {
        assert body[i] == body[..|PREFIX|][i] == PREFIX[i];
        PrefixIsAlnum(i);
      }
    }
  }

  lemma PrefixIsAlnum(i: nat)
    requires i < |PREFIX|
    ensures IsAlnum(PREFIX[i])
  {
  }
}
