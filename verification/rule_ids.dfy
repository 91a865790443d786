/** The identifiers a rule makes for itself: a version-4 style UUID filled
    in from a template, a ten-character slug, and the checks an alias must
    pass before it replaces the slug. The random draws are inputs. */
module RuleIds {
  import opened Wrappers
  import opened Types

  /** `Math.random() * 16 | 0`: one hexadecimal digit's worth of randomness. */
  type Nibble = x: int | 0 <= x < 16

  /** `Math.floor(Math.random() * 62)`: an index into the slug alphabet. */
  type SlugDraw = x: int | 0 <= x < 62

  /** "xxxxxxxx-xxxx-4xxx-yxxx-xxxxxxxxxxxx", in its runs. */
  const UuidTemplate: string := Xs(8) + "-" + Xs(4) + "-4" + Xs(3) + "-y" + Xs(3) + "-" + Xs(12)

  /** "ABCDEFGHIJKLMNOPQRSTUVWXYZabcdefghijklmnopqrstuvwxyz0123456789", in its three runs. */
  const SlugAlphabet: string := "ABCDEFGHIJKLMNOPQRSTUVWXYZ" + "abcdefghijklmnopqrstuvwxyz" + "0123456789"

  const SlugLength: nat := 10

  const HexDigits: string := "0123456789abcdef"

  /** `v.toString(16)` for one digit. */
  function Hex(v: Nibble): char {
    HexDigits[v]
  }

  /** How many characters of `t` the replacement callback rewrites. */
  function Placeholders(t: string): nat {
    if |t| == 0 then 0
    else (if t[0] == 'x' || t[0] == 'y' then 1 else 0) + Placeholders(t[1..])
  }

  lemma {:induction false} PlaceholdersAppend(a: string, b: string)
    ensures Placeholders(a + b) == Placeholders(a) + Placeholders(b)
    decreases |a|
  {
    if |a| > 0 {
      assert (a + b)[0] == a[0];
      assert (a + b)[1..] == a[1..] + b;
      PlaceholdersAppend(a[1..], b);
    } else {
      assert a + b == b;
    }
  }

  /** A run of `n` copies of 'x'. */
  function Xs(n: nat): (s: string)
    ensures |s| == n && forall i | 0 <= i < n :: s[i] == 'x'
  {
    seq(n, _ => 'x')
  }

  lemma {:induction false} PlaceholdersXs(n: nat)
    ensures Placeholders(Xs(n)) == n
  {
    if n > 0 {
      assert Xs(n)[1..] == Xs(n - 1);
      PlaceholdersXs(n - 1);
    }
  }

  /** The template has 31 characters to fill. */
  lemma TemplatePlaceholders()
    ensures Placeholders(UuidTemplate) == 31
  {
    PlaceholdersXs(8); PlaceholdersXs(4); PlaceholdersXs(3); PlaceholdersXs(12);
    var t1 := Xs(8) + "-";
    var t2 := t1 + Xs(4);
    var t3 := t2 + "-4";
    var t4 := t3 + Xs(3);
    var t5 := t4 + "-y";
    var t6 := t5 + Xs(3);
    var t7 := t6 + "-";
    PlaceholdersAppend(Xs(8), "-");
    PlaceholdersAppend(t1, Xs(4));
    PlaceholdersAppend(t2, "-4");
    PlaceholdersAppend(t3, Xs(3));
    PlaceholdersAppend(t4, "-y");
    PlaceholdersAppend(t5, Xs(3));
    PlaceholdersAppend(t6, "-");
    PlaceholdersAppend(t7, Xs(12));
  }

  /** `t.replace(/[xy]/g, ...)`: each 'x' becomes a random digit and each 'y'
      a digit with its top two bits forced to 10 (`r & 0x3 | 0x8`, which is
      `r % 4 + 8` because `r & 0x3` is below 8), consuming one draw each, left
      to right; every other character is kept. */
  function Fill(t: string, draws: seq<Nibble>): string
    requires |draws| == Placeholders(t)
  {
    if |t| == 0 then ""
    else if t[0] == 'x' then [Hex(draws[0])] + Fill(t[1..], draws[1..])
    else if t[0] == 'y' then [Hex(draws[0] % 4 + 8)] + Fill(t[1..], draws[1..])
    else [t[0]] + Fill(t[1..], draws)
  }

  /** `Fill` keeps the template's length and its fixed characters, puts a
      lower-case hex digit at each 'x' and one of "89ab" at each 'y'. */
  lemma {:induction false} FillShape(t: string, draws: seq<Nibble>)
    requires |draws| == Placeholders(t)
    ensures |Fill(t, draws)| == |t|
    ensures forall i | 0 <= i < |t| :: t[i] == 'x' ==> Fill(t, draws)[i] in HexDigits
    ensures forall i | 0 <= i < |t| :: t[i] == 'y' ==> Fill(t, draws)[i] in "89ab"
    ensures forall i | 0 <= i < |t| :: t[i] != 'x' && t[i] != 'y' ==> Fill(t, draws)[i] == t[i]
    decreases |t|
  {
    if |t| > 0 {
      var rest := if t[0] == 'x' || t[0] == 'y' then draws[1..] else draws;
      FillShape(t[1..], rest);
      var head := Fill(t, draws)[..1];
      assert Fill(t, draws) == head + Fill(t[1..], rest);
      forall i | 0 < i < |t|
        ensures Fill(t, draws)[i] == Fill(t[1..], rest)[i - 1] && t[i] == t[1..][i - 1]
      {
      }
      if t[0] == 'y' {
        var d := draws[0] % 4 + 8;
        assert Hex(d) == "89ab"[d - 8];
      }
    }
  }

  /** `generateUUID()` from 31 draws. */
  function GenerateUuid(draws: seq<Nibble>): (id: string)
    requires |draws| == 31
    ensures |id| == 36
  {
    TemplatePlaceholders();
    FillShape(UuidTemplate, draws);
    Fill(UuidTemplate, draws)
  }

  /** The character the template has at position `i`. */
  function TemplateChar(i: nat): char {
    if i in {8, 13, 18, 23} then '-' else if i == 14 then '4' else if i == 19 then 'y' else 'x'
  }

  lemma TemplateChars()
    ensures |UuidTemplate| == 36
    ensures forall i | 0 <= i < 36 :: UuidTemplate[i] == TemplateChar(i)
  {
    var t1 := Xs(8) + "-";
    assert forall i | 0 <= i < 9 :: t1[i] == TemplateChar(i);
    var t2 := t1 + Xs(4);
    assert forall i | 9 <= i < 13 :: t2[i] == Xs(4)[i - 9];
    assert forall i | 0 <= i < 13 :: t2[i] == TemplateChar(i);
    var t3 := t2 + "-4";
    assert forall i | 0 <= i < 15 :: t3[i] == TemplateChar(i);
    var t4 := t3 + Xs(3);
    assert forall i | 15 <= i < 18 :: t4[i] == Xs(3)[i - 15];
    assert forall i | 0 <= i < 18 :: t4[i] == TemplateChar(i);
    var t5 := t4 + "-y";
    assert forall i | 0 <= i < 20 :: t5[i] == TemplateChar(i);
    var t6 := t5 + Xs(3);
    assert forall i | 20 <= i < 23 :: t6[i] == Xs(3)[i - 20];
    assert forall i | 0 <= i < 23 :: t6[i] == TemplateChar(i);
    var t7 := t6 + "-";
    assert forall i | 0 <= i < 24 :: t7[i] == TemplateChar(i);
    var t := t7 + Xs(12);
    assert forall i | 24 <= i < 36 :: t[i] == Xs(12)[i - 24];
    assert t == UuidTemplate;
  }

  /** The shape of every generated id: 36 characters, dashes at 8, 13, 18
      and 23, the version digit '4' at 14, the variant digit (one of "89ab")
      at 19, and lower-case hex digits everywhere else. */
  lemma UuidFormat(draws: seq<Nibble>)
    requires |draws| == 31
    ensures var id := GenerateUuid(draws);
      && |id| == 36
      && id[8] == '-' && id[13] == '-' && id[18] == '-' && id[23] == '-'
      && id[14] == '4'
      && id[19] in "89ab"
      && forall i | 0 <= i < 36 && i !in {8, 13, 14, 18, 19, 23} :: id[i] in HexDigits
  {
    TemplatePlaceholders();
    FillShape(UuidTemplate, draws);
    TemplateChars();
    assert forall i | 0 <= i < 36 && i !in {8, 13, 14, 18, 19, 23} :: UuidTemplate[i] == 'x';
  }

  /** `generateSlug(length)`: one alphabet character per draw. */
  function GenerateSlug(draws: seq<SlugDraw>): (slug: string)
    ensures |slug| == |draws|
    ensures forall i | 0 <= i < |slug| :: slug[i] in SlugAlphabet
  {
    seq(|draws|, i requires 0 <= i < |draws| => SlugAlphabet[draws[i]])
  }

  /** The characters `^[a-zA-Z0-9\-_]+$` accepts. */
  predicate AliasChar(c: char) {
    ('a' <= c <= 'z') || ('A' <= c <= 'Z') || ('0' <= c <= '9') || c == '-' || c == '_'
  }

  const ClientRequiredForAlias := "A Rulebricks client is required to set an alias"
  const AliasTooShort := "Alias must be at least 3 characters long"
  const AliasHasSlashOrSpace := "Alias cannot contain slashes or spaces"
  const AliasHasSpecial := "Alias cannot contain special characters"

  /** The checks `setAlias` runs, in order: a client must be attached, the
      alias must have at least three characters, must not contain '/', '\'
      or ' ', and must match `^[a-zA-Z0-9\-_]+$`. */
  function CheckAlias(hasWorkspace: bool, alias: string): (o: Outcome<Error>)
    ensures o.Pass? <==> hasWorkspace && |alias| >= 3 && forall i | 0 <= i < |alias| :: AliasChar(alias[i])
    ensures o.Fail? ==> o.error.kind == PlainError
    ensures !hasWorkspace ==> o == Fail(Error(PlainError, ClientRequiredForAlias))
    ensures hasWorkspace && |alias| < 3 ==> o == Fail(Error(PlainError, AliasTooShort))
    ensures hasWorkspace && |alias| >= 3 && (' ' in alias || '/' in alias || '\\' in alias)
            ==> o == Fail(Error(PlainError, AliasHasSlashOrSpace))
    ensures hasWorkspace && |alias| >= 3 && !(' ' in alias || '/' in alias || '\\' in alias)
            && (exists i | 0 <= i < |alias| :: !AliasChar(alias[i]))
            ==> o == Fail(Error(PlainError, AliasHasSpecial))
  {
    if !hasWorkspace then Fail(Error(PlainError, ClientRequiredForAlias))
    else if |alias| < 3 then Fail(Error(PlainError, AliasTooShort))
    else if '/' in alias || '\\' in alias || ' ' in alias then Fail(Error(PlainError, AliasHasSlashOrSpace))
    else if !(forall i | 0 <= i < |alias| :: AliasChar(alias[i])) then Fail(Error(PlainError, AliasHasSpecial))
    else Pass
  }

  /** Every generated slug of the usual length would itself be accepted as
      an alias once a client is attached. */
  lemma GeneratedSlugIsValidAlias(draws: seq<SlugDraw>)
    requires |draws| == SlugLength
    ensures CheckAlias(true, GenerateSlug(draws)).Pass?
  {
    assert forall j | 0 <= j < 26 :: AliasChar("ABCDEFGHIJKLMNOPQRSTUVWXYZ"[j]);
    assert forall j | 0 <= j < 26 :: AliasChar("abcdefghijklmnopqrstuvwxyz"[j]);
    assert forall j | 0 <= j < 10 :: AliasChar("0123456789"[j]);
    assert forall j | 0 <= j < |SlugAlphabet| :: AliasChar(SlugAlphabet[j]);
    var slug := GenerateSlug(draws);
    forall i | 0 <= i < |slug|
      ensures AliasChar(slug[i])
    {
      assert slug[i] == SlugAlphabet[draws[i]];
    }
  }
}
