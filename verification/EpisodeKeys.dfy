/** Canonical `SxxEyy` episode keys (app/follow/episode_keys.py), down to the digits. */
module EpisodeKeys {
  import opened PyText
  import opened Sorting

  /** A stored episode value: JSON null, a flag, a number or a text.  Any other object counts as its `str()`. */
  datatype Raw = NoneValue | BoolValue(flag: bool) | IntValue(number: int) | TextValue(text: string)

  /** A canonical key, given by the two numbers it is written from.  `FormatInjective` shows that equal keys are
      exactly equal texts. */
  datatype Key = Key(season: int, episode: int) {
    /** `f"S{season:02d}E{episode:02d}"`. */
    function Text(): string {
      FormatKey(season, episode)
    }

    /** `int(key[1:3])`, which the callers read as "the season"; see `SliceOfFormatted`. */
    function Slice(): nat
      requires season >= 0
    {
      LeadingTwo(season)
    }
  }

  // ---------- parsing ----------

  function IndexOfE(s: string): (i: nat)
    ensures i <= |s|
    ensures i < |s| ==> s[i] == 'E'
    ensures 'E' !in s[..i]
  {
    if s == "" || s[0] == 'E' then 0 else
      var i := 1 + IndexOfE(s[1..]);
      assert s[..i] == [s[0]] + s[1..][..i - 1];
      i
  }

  /** `^S?(\d{1,3})E(\d{1,4})$` on an upper-case text: season and episode. */
  function ParseFull(t: string): (r: Option<(nat, nat)>)
    ensures r.Some? ==> r.value.0 < 1000 && r.value.1 < 10000
  {
    var body := if t != "" && t[0] == 'S' then t[1..] else t;
    var i := IndexOfE(body);
    if 1 <= i <= 3 && i + 2 <= |body| <= i + 5 && AllDigits(body[..i]) && AllDigits(body[i + 1..]) then
      ShortNumerals(body[..i], body[i + 1..]);
      Some((Value(body[..i]), Value(body[i + 1..])))
    else
      None
  }

  lemma ShortNumerals(season: string, episode: string)
    requires AllDigits(season) && AllDigits(episode) && |season| <= 3 && |episode| <= 4
    ensures Value(season) < 1000 && Value(episode) < 10000
  {
    ValueBelow(season);
    ValueBelow(episode);
    PowMonotone(|season|, 3);
    PowMonotone(|episode|, 4);
    PowersOfTen();
  }

  /** `^E?(\d{1,4})$` on an upper-case text: the episode. */
  function ParseEpisodeOnly(t: string): (r: Option<nat>)
    ensures r.Some? ==> r.value < 10000
  {
    var body := if t != "" && t[0] == 'E' then t[1..] else t;
    if 1 <= |body| <= 4 && AllDigits(body) then
      ShortNumerals("", body);
      Some(Value(body))
    else
      None
  }

  /** `int(season or 1)`: a missing season and season 0 both mean season 1. */
  function EffectiveSeason(season: Option<int>): int {
    if season.None? || season.value == 0 then 1 else season.value
  }

  /** A stored season names s; a missing one and 0 name season 1. */
  predicate Names(season: Option<int>, s: int) {
    (s != 0 && season == Some(s)) || (s == 1 && (season == None || season == Some(0)))
  }

  lemma NamesEffective(season: Option<int>, s: int)
    ensures Names(season, s) <==> EffectiveSeason(season) == s
  {
  }

  function ResolveText(season: Option<int>, text: string): Option<Key> {
    var full := ParseFull(text);
    if full.Some? then Some(Key(full.value.0, full.value.1)) else
      var short := ParseEpisodeOnly(text);
      if short.Some? then Some(Key(EffectiveSeason(season), short.value)) else None
  }

  /** The key a stored value stands for: `canonical_episode_key` before it is written out. */
  function KeyOf(season: Option<int>, value: Raw): (r: Option<Key>)
    ensures r.Some? ==> r.value.season >= 1 && 1 <= r.value.episode < 10000
    ensures r.Some? && r.value.season >= 1000 ==> r.value.season == EffectiveSeason(season)
  {
    if value.NoneValue? || value.BoolValue? then None else
      var text := if value.IntValue? then IntText(value.number) else value.text;
      var key := ResolveText(season, Normalized(text));
      if key.Some? && key.value.season > 0 && key.value.episode > 0 then key else None
  }

  /** `f"S{season:02d}E{episode:02d}"`. */
  function FormatKey(season: int, episode: int): (key: string)
    ensures |key| >= 6
  {
    "S" + Pad2(season) + "E" + Pad2(episode)
  }

  function CanonicalKey(season: Option<int>, value: Raw): Option<string> {
    var key := KeyOf(season, value);
    if key.None? then None else Some(key.value.Text())
  }

  /** The set a collection of stored values normalises to: `{key for value in values if key is not None}`. */
  function KeySet(season: Option<int>, values: seq<Raw>): set<Key> {
    set i | 0 <= i < |values| && KeyOf(season, values[i]).Some? :: KeyOf(season, values[i]).value
  }

  function CanonicalSet(season: Option<int>, values: seq<Raw>): set<string> {
    set i | 0 <= i < |values| && CanonicalKey(season, values[i]).Some? :: CanonicalKey(season, values[i]).value
  }

  /** `episode_number(value)`: the part of the canonical key behind its `E`. */
  function EpisodeNumber(value: Raw): Option<nat> {
    var key := KeyOf(None, value);
    if key.None? then None else Some(key.value.episode)
  }

  // ---------- the writer and the reader are inverse ----------

  lemma NoEInPad2(n: int)
    ensures 'E' !in Pad2(n)
  {
    if n < 0 {
      assert Pad2(n) == "-" + Decimal(-n);
    }
  }

  lemma {:induction false} IndexOfEAfter(a: string, b: string)
    requires 'E' !in a
    ensures IndexOfE(a + "E" + b) == |a|
  {
    if a != "" {
      IndexOfEAfter(a[1..], b);
      assert (a + "E" + b)[1..] == a[1..] + "E" + b;
    } else {
      assert (a + "E" + b)[0] == 'E';
    }
  }

  /** Splits a written key back into its two numerals. */
  lemma SplitFormatted(season: int, episode: int)
    ensures var body := FormatKey(season, episode)[1..];
            IndexOfE(body) == |Pad2(season)| && body[..|Pad2(season)|] == Pad2(season) &&
            body[|Pad2(season)| + 1..] == Pad2(episode)
  {
    NoEInPad2(season);
    IndexOfEAfter(Pad2(season), Pad2(episode));
    assert FormatKey(season, episode)[1..] == Pad2(season) + "E" + Pad2(episode);
  }

  lemma Pad2Sign(n: int)
    ensures Pad2(n)[0] == '-' <==> n < 0
  {
  }

  lemma Pad2Injective(m: int, n: int)
    requires Pad2(m) == Pad2(n)
    ensures m == n
  {
    Pad2Sign(m);
    Pad2Sign(n);
    if m >= 0 {
      ValueOfPad2(m);
      ValueOfPad2(n);
    } else {
      ValueOfDecimal(-m);
      ValueOfDecimal(-n);
      assert Decimal(-m) == Pad2(m)[1..] && Decimal(-n) == Pad2(n)[1..];
    }
  }

  /** Two different episodes, of any seasons and of any sign, are never written alike. */
  lemma FormatInjective(s1: int, e1: int, s2: int, e2: int)
    ensures FormatKey(s1, e1) == FormatKey(s2, e2) <==> s1 == s2 && e1 == e2
  {
    if FormatKey(s1, e1) == FormatKey(s2, e2) {
      SplitFormatted(s1, e1);
      SplitFormatted(s2, e2);
      Pad2Injective(s1, s2);
      Pad2Injective(e1, e2);
    }
  }

  /** Reading undoes writing exactly for seasons up to 999 and episodes up to 9999. */
  lemma ParseFormatted(season: nat, episode: nat)
    ensures ParseFull(FormatKey(season, episode)) ==
            if season < 1000 && episode < 10000 then Some((season, episode)) else None
  {
    SplitFormatted(season, episode);
    DecimalWidths(season);
    DecimalWidths(episode);
    ValueOfPad2(season);
    ValueOfPad2(episode);
  }

  lemma FormatIsPlain(season: nat, episode: nat)
    ensures Plain(FormatKey(season, episode))
  {
    var key := FormatKey(season, episode);
    forall i | 0 <= i < |key|
      ensures key[i] == 'S' || key[i] == 'E' || IsDigit(key[i])
    {
    }
  }

  lemma FormatPlain(season: nat, episode: nat)
    ensures Normalized(FormatKey(season, episode)) == FormatKey(season, episode)
    ensures Upper(Strip(FormatKey(season, episode))) == FormatKey(season, episode)
  {
    FormatIsPlain(season, episode);
    NormalizedPlain(FormatKey(season, episode));
  }

  /** A written key is read back as itself whatever the season context, unless its season has more than three digits. */
  lemma CanonicalFormatted(context: Option<int>, season: nat, episode: nat)
    requires season >= 1 && episode >= 1
    ensures CanonicalKey(context, TextValue(FormatKey(season, episode))) ==
            if season < 1000 && episode < 10000 then Some(FormatKey(season, episode)) else None
    ensures season < 1000 && episode < 10000 ==>
              KeyOf(context, TextValue(FormatKey(season, episode))) == Some(Key(season, episode))
  {
    FormatPlain(season, episode);
    ParseFormatted(season, episode);
    assert FormatKey(season, episode)[0] == 'S';
    assert !IsDigit('S');
  }

  /** The text a value is read from. */
  function TextOf(value: Raw): string {
    if value.IntValue? then IntText(value.number) else if value.TextValue? then value.text else ""
  }

  /** Idempotence and where it ends.  Normalising twice equals normalising once iff the season context fits three digits
      or the value names its own season; the second pass loses the key of any other value. */
  lemma CanonicalIdempotent(season: Option<int>, value: Raw, context: Option<int>)
    requires CanonicalKey(season, value).Some?
    ensures var key := CanonicalKey(season, value).value;
            var again := CanonicalKey(context, TextValue(key));
            var keeps := EffectiveSeason(season) < 1000 || ParseFull(Normalized(TextOf(value))).Some?;
            (again == Some(key) <==> keeps) && (!keeps ==> again == None)
    ensures KeyOf(season, value).value.season < 1000 <==>
            EffectiveSeason(season) < 1000 || ParseFull(Normalized(TextOf(value))).Some?
  {
    var key := KeyOf(season, value).value;
    CanonicalFormatted(context, key.season, key.episode);
  }

  lemma ParseBare(digits: string, text: string)
    requires AllDigits(digits) && 1 <= |digits| <= 4
    requires text == digits || text == "E" + digits
    ensures Plain(text) && ParseFull(text) == None && ParseEpisodeOnly(text) == Some(Value(digits))
  {
    if text == digits {
      assert 'E' !in text && text[0] != 'S';
    } else {
      assert text[0] == 'E' && text[1..] == digits;
    }
  }

  /** What a bare episode number stands for in a season context. */
  function BareKey(season: Option<int>, episode: nat): Option<Key> {
    if EffectiveSeason(season) >= 1 && episode >= 1 then Some(Key(EffectiveSeason(season), episode)) else None
  }

  lemma BareText(season: Option<int>, text: string, episode: nat)
    requires Plain(text) && ParseFull(text) == None && ParseEpisodeOnly(text) == Some(episode)
    ensures KeyOf(season, TextValue(text)) == BareKey(season, episode)
  {
    NormalizedPlain(text);
  }

  lemma BareDigits(season: Option<int>, digits: string, text: string)
    requires AllDigits(digits) && 1 <= |digits| <= 4
    requires text == digits || text == "E" + digits
    ensures KeyOf(season, TextValue(text)) == BareKey(season, Value(digits))
  {
    ParseBare(digits, text);
    BareText(season, text, Value(digits));
  }

  lemma ShortDecimal(episode: nat)
    requires episode < 10000
    ensures 1 <= |Decimal(episode)| <= 4 && Value(Decimal(episode)) == episode
  {
    ValueOfDecimal(episode);
    DecimalWidths(episode);
  }

  /** A bare episode number takes the season of its context. */
  lemma BareNumber(season: Option<int>, episode: nat)
    requires episode < 10000
    ensures KeyOf(season, IntValue(episode)) == BareKey(season, episode)
  {
    ShortDecimal(episode);
    BareDigits(season, Decimal(episode), Decimal(episode));
  }

  /** So does one written with its `E`. */
  lemma BareEpisode(season: Option<int>, episode: nat)
    requires episode < 10000
    ensures KeyOf(season, TextValue("E" + Decimal(episode))) == BareKey(season, episode)
  {
    ShortDecimal(episode);
    BareDigits(season, Decimal(episode), "E" + Decimal(episode));
  }

  /** And no other number: negative ones, and those with more than four digits, are no episodes. */
  lemma BareNumberOnly(season: Option<int>, episode: int, k: Key)
    ensures KeyOf(season, IntValue(episode)) == Some(k) <==>
            Names(season, k.season) && k.season >= 1 && k.episode == episode && 1 <= episode < 10000
  {
    if 0 <= episode < 10000 {
      BareNumber(season, episode);
    } else {
      NoBareNumber(season, episode);
    }
  }

  lemma NoBareNumber(season: Option<int>, episode: int)
    requires episode < 0 || episode >= 10000
    ensures KeyOf(season, IntValue(episode)) == None
  {
    var text := IntText(episode);
    if episode >= 0 {
      DecimalWidths(episode);
    } else {
      assert text[0] == '-';
    }
    assert forall i | 0 <= i < |text| :: text[i] == '-' || IsDigit(text[i]);
    NormalizedPlain(text);
    assert 'E' !in text && text[0] != 'S';
  }

  /** Season and episode in one to three and one to four digits, with or without the S. */
  predicate SpellsFull(t: string, s: string, e: string) {
    && AllDigits(s) && 1 <= |s| <= 3 && AllDigits(e) && 1 <= |e| <= 4
    && (t == "S" + s + "E" + e || t == s + "E" + e)
  }

  /** An episode in one to four digits, with or without the E. */
  predicate SpellsBare(t: string, e: string) {
    AllDigits(e) && 1 <= |e| <= 4 && (t == "E" + e || t == e)
  }

  lemma FullSplits(s: string, e: string)
    requires AllDigits(s)
    ensures var body := s + "E" + e; IndexOfE(body) == |s| && body[..|s|] == s && body[|s| + 1..] == e
  {
    IndexOfEAfter(s, e);
  }

  lemma FullParses(t: string, s: string, e: string)
    requires SpellsFull(t, s, e)
    ensures Value(s) < 1000 && Value(e) < 10000 && ParseFull(t) == Some((Value(s), Value(e)))
  {
    FullSplits(s, e);
    ShortNumerals(s, e);
    var body := s + "E" + e;
    if t == "S" + s + "E" + e {
      assert t[1..] == body;
    } else {
      assert t[0] == s[0] && t == body;
    }
  }

  lemma ParsedIsSpelled(t: string) returns (s: string, e: string)
    requires ParseFull(t).Some?
    ensures SpellsFull(t, s, e)
  {
    var body := if t != "" && t[0] == 'S' then t[1..] else t;
    var i := IndexOfE(body);
    s, e := body[..i], body[i + 1..];
    CutAtE(body, i);
    assert t == body || t == "S" + body;
  }

  lemma CutAtE(body: string, i: nat)
    requires i < |body| && body[i] == 'E'
    ensures body == body[..i] + "E" + body[i + 1..]
    ensures "S" + body == "S" + body[..i] + "E" + body[i + 1..]
  {
  }

  lemma BareIsSpelled(t: string) returns (e: string)
    requires ParseEpisodeOnly(t).Some?
    ensures SpellsBare(t, e) && ParseEpisodeOnly(t) == Some(Value(e))
  {
    e := if t != "" && t[0] == 'E' then t[1..] else t;
    assert t == "E" + e || t == e;
  }

  /** The text spells the key out, in full or as a bare episode of the season in context. */
  ghost predicate Spells(season: Option<int>, t: string, k: Key) {
    || (exists s, e :: SpellsFull(t, s, e) && k.season == Value(s) && k.episode == Value(e))
    || (exists e :: SpellsBare(t, e) && Names(season, k.season) && k.episode == Value(e))
  }

  /** A value is read as a key exactly when it is a number or a text that spells a key with a positive season and a
      positive episode, in either letter case, with white space around it and blanks inside; flags and missing values
      are never read. */
  lemma KeyIff(season: Option<int>, value: Raw, k: Key)
    ensures KeyOf(season, value) == Some(k) <==>
            (value.IntValue? || value.TextValue?) && k.season >= 1 && k.episode >= 1 &&
            Spells(season, Normalized(TextOf(value)), k)
  {
    var t := Normalized(TextOf(value));
    NamesEffective(season, k.season);
    if ParseFull(t).Some? {
      var s, e := ParsedIsSpelled(t);
      FullParses(t, s, e);
    } else if ParseEpisodeOnly(t).Some? {
      var e := BareIsSpelled(t);
    }
    forall s, e | SpellsFull(t, s, e)
      ensures ParseFull(t) == Some((Value(s), Value(e)))
    {
      FullParses(t, s, e);
    }
    forall e | SpellsBare(t, e)
      ensures ParseFull(t) == None && ParseEpisodeOnly(t) == Some(Value(e))
    {
      ParseBare(e, t);
    }
  }

  /** The failing family is inhabited by every bare episode in every such context. */
  lemma CanonicalNotIdempotent(season: nat, episode: nat, context: Option<int>)
    requires season >= 1000 && 1 <= episode < 10000
    ensures CanonicalKey(Some(season), IntValue(episode)) == Some(FormatKey(season, episode))
    ensures CanonicalKey(context, TextValue(FormatKey(season, episode))) == None
  {
    BareNumber(Some(season), episode);
    CanonicalFormatted(context, season, episode);
  }

  /** What the callers take for the season of a key, `int(key[1:3])`, is its first two digits: right below 100 and
      wrong from there on. */
  lemma SliceOfFormatted(key: Key)
    requires key.season >= 0
    ensures |key.Text()| >= 3 && AllDigits(key.Text()[1..3]) && Value(key.Text()[1..3]) == key.Slice() < 100
    ensures key.Slice() == key.season <==> key.season < 100
    ensures 100 <= key.season < 1000 ==> key.Slice() == key.season / 10
  {
    LeadingTwoOfPad2(key.season);
    assert key.Text()[1..3] == Pad2(key.season)[..2];
    if 100 <= key.season < 1000 {
      assert LeadingTwo(key.season) == LeadingTwo(key.season / 10) == key.season / 10;
    }
  }

  /** `episode_number` of a written key is its episode. */
  lemma EpisodeNumberOfFormatted(season: nat, episode: nat)
    requires 1 <= season && 1 <= episode < 10000
    ensures EpisodeNumber(TextValue(FormatKey(season, episode))) == if season < 1000 then Some(episode) else None
  {
    CanonicalFormatted(None, season, episode);
  }

  // ---------- canonical_episode_keys: deduplicated and sorted ----------

  const UNREADABLE: Rank := (1000000000, 1000000000)

  function SortKey(key: string): Rank {
    var parts := ParseFull(Upper(Strip(key)));
    if parts.Some? then parts.value else UNREADABLE
  }

  function KeyList(season: Option<int>, values: seq<Raw>): (r: seq<string>)
    ensures forall k :: k in r <==> k in CanonicalSet(season, values)
  {
    if values == [] then [] else
      var rest := KeyList(season, values[1..]);
      var head := CanonicalKey(season, values[0]);
      assert forall k :: k in CanonicalSet(season, values) <==>
                           (head.Some? && k == head.value) || k in CanonicalSet(season, values[1..]) by {
        assert values == [values[0]] + values[1..];
        forall k | k in CanonicalSet(season, values)
          ensures (head.Some? && k == head.value) || k in CanonicalSet(season, values[1..])
        {
          var i :| 0 <= i < |values| && CanonicalKey(season, values[i]) == Some(k);
          if i > 0 {
            assert values[i] == values[1..][i - 1];
          }
        }
        forall k | k in CanonicalSet(season, values[1..])
          ensures k in CanonicalSet(season, values)
        {
          var i :| 0 <= i < |values[1..]| && CanonicalKey(season, values[1..][i]) == Some(k);
          assert values[i + 1] == values[1..][i];
        }
      }
      (if head.Some? then [head.value] else []) + rest
  }

  function CanonicalKeys(season: Option<int>, values: seq<Raw>): seq<string> {
    SortedSet(KeyList(season, values), SortKey)
  }

  /** The season does not fit three digits, which only a bare episode number in a wide context brings about. */
  predicate Wide(season: Option<int>, value: Raw) {
    KeyOf(season, value).Some? && KeyOf(season, value).value.season >= 1000
  }

  /** All such values stand for the same key. */
  ghost predicate OneWideKey(season: Option<int>, values: seq<Raw>) {
    forall i, j | 0 <= i < |values| && 0 <= j < |values| && Wide(season, values[i]) && Wide(season, values[j]) ::
      KeyOf(season, values[i]) == KeyOf(season, values[j])
  }

  lemma SortKeyOfKey(season: Option<int>, value: Raw)
    requires KeyOf(season, value).Some?
    ensures var key := KeyOf(season, value).value;
            SortKey(key.Text()) == if key.season < 1000 then (key.season, key.episode) else UNREADABLE
  {
    var key := KeyOf(season, value).value;
    FormatPlain(key.season, key.episode);
    ParseFormatted(key.season, key.episode);
  }

  lemma SortKeysTie(season: Option<int>, v: Raw, w: Raw)
    requires KeyOf(season, v).Some? && KeyOf(season, w).Some?
    ensures var a, b := KeyOf(season, v).value, KeyOf(season, w).value;
            && (a.Text() == b.Text() <==> a == b)
            && (SortKey(a.Text()) == SortKey(b.Text()) <==> a == b || (Wide(season, v) && Wide(season, w)))
  {
    var a, b := KeyOf(season, v).value, KeyOf(season, w).value;
    FormatInjective(a.season, a.episode, b.season, b.episode);
    SortKeyOfKey(season, v);
    SortKeyOfKey(season, w);
  }

  lemma TellsKeysApart(season: Option<int>, values: seq<Raw>)
    ensures TellsApart(KeyList(season, values), SortKey) <==> OneWideKey(season, values)
  {
    var keys := KeyList(season, values);
    if OneWideKey(season, values) {
      forall x, y | x in keys && y in keys && x != y
        ensures SortKey(x) != SortKey(y)
      {
        var i :| 0 <= i < |values| && CanonicalKey(season, values[i]) == Some(x);
        var j :| 0 <= j < |values| && CanonicalKey(season, values[j]) == Some(y);
        SortKeysTie(season, values[i], values[j]);
      }
    }
    if TellsApart(keys, SortKey) {
      forall i, j | 0 <= i < |values| && 0 <= j < |values| && Wide(season, values[i]) && Wide(season, values[j])
        ensures KeyOf(season, values[i]) == KeyOf(season, values[j])
      {
        SortKeysTie(season, values[i], values[j]);
        assert CanonicalKey(season, values[i]).value in CanonicalSet(season, values);
        assert CanonicalKey(season, values[j]).value in CanonicalSet(season, values);
      }
    }
  }

  /** The list holds each canonical key once.  It is in strictly increasing (season, episode) order, and the only order
      `sorted` may give it, if and only if no two different keys of seasons from 1000 on are among them; a context below
      1000 is enough for that. */
  lemma CanonicalKeysAscending(season: Option<int>, values: seq<Raw>)
    ensures Distinct(CanonicalKeys(season, values))
    ensures forall k :: k in CanonicalKeys(season, values) <==> k in CanonicalSet(season, values)
    ensures Ascending(CanonicalKeys(season, values), SortKey) <==> OneWideKey(season, values)
    ensures (forall r | Sorts(r, KeyList(season, values), SortKey) :: r == CanonicalKeys(season, values)) <==>
            OneWideKey(season, values)
    ensures EffectiveSeason(season) < 1000 ==> OneWideKey(season, values)
  {
    var keys := KeyList(season, values);
    TellsKeysApart(season, values);
    SortedSetAscending(keys, SortKey);
    SortedOnceIff(keys, SortKey);
  }

  /** The list runs by season and then by episode; keys of seasons from 1000 on, if any, come last. */
  lemma KeysInOrder(season: Option<int>, values: seq<Raw>, i: nat, j: nat, a: Key, b: Key)
    requires i < j < |CanonicalKeys(season, values)| && a in KeySet(season, values) && b in KeySet(season, values)
    requires CanonicalKeys(season, values)[i] == a.Text() && CanonicalKeys(season, values)[j] == b.Text()
    ensures b.season < 1000 ==> a.season < b.season || (a.season == b.season && a.episode < b.episode)
  {
    var v :| 0 <= v < |values| && KeyOf(season, values[v]) == Some(a);
    var w :| 0 <= w < |values| && KeyOf(season, values[w]) == Some(b);
    SortKeyOfKey(season, values[v]);
    SortKeyOfKey(season, values[w]);
    SortKeysTie(season, values[v], values[w]);
  }

  /** Then the result depends only on which values occur, not on their order or repetition. */
  lemma CanonicalKeysOrderInsensitive(season: Option<int>, a: seq<Raw>, b: seq<Raw>)
    requires forall v :: v in a <==> v in b
    ensures CanonicalSet(season, a) == CanonicalSet(season, b)
    ensures OneWideKey(season, a) ==> CanonicalKeys(season, a) == CanonicalKeys(season, b)
  {
    CanonicalSetInclusion(season, a, b);
    CanonicalSetInclusion(season, b, a);
    if OneWideKey(season, a) {
      forall i, j | 0 <= i < |b| && 0 <= j < |b| && Wide(season, b[i]) && Wide(season, b[j])
        ensures KeyOf(season, b[i]) == KeyOf(season, b[j])
      {
        assert b[i] in a && b[j] in a;
      }
      CanonicalKeysAscending(season, a);
      CanonicalKeysAscending(season, b);
      AscendingUnique(CanonicalKeys(season, a), CanonicalKeys(season, b), SortKey);
    }
  }

  lemma CanonicalSetInclusion(season: Option<int>, a: seq<Raw>, b: seq<Raw>)
    requires forall v :: v in a ==> v in b
    ensures CanonicalSet(season, a) <= CanonicalSet(season, b)
  {
    forall k | k in CanonicalSet(season, a)
      ensures k in CanonicalSet(season, b)
    {
      var i :| 0 <= i < |a| && CanonicalKey(season, a[i]) == Some(k);
      assert a[i] in b;
    }
  }

  /** And not otherwise: in every season context from 1000 on, two different bare episodes are listed in the order in
      which the set yields them, here that of their first appearance. */
  lemma WideSeasonsTie(season: nat, e1: nat, e2: nat)
    requires season >= 1000 && 1 <= e1 < 10000 && 1 <= e2 < 10000 && e1 != e2
    ensures CanonicalKeys(Some(season), [IntValue(e1), IntValue(e2)]) == [FormatKey(season, e1), FormatKey(season, e2)]
    ensures CanonicalKeys(Some(season), [IntValue(e2), IntValue(e1)]) == [FormatKey(season, e2), FormatKey(season, e1)]
    ensures [FormatKey(season, e1), FormatKey(season, e2)] != [FormatKey(season, e2), FormatKey(season, e1)]
  {
    FormatInjective(season, e1, season, e2);
    TwoInOrder(season, e1, e2);
    TwoInOrder(season, e2, e1);
  }

  lemma TwoInOrder(season: nat, e1: nat, e2: nat)
    requires season >= 1000 && 1 <= e1 < 10000 && 1 <= e2 < 10000 && e1 != e2
    ensures CanonicalKeys(Some(season), [IntValue(e1), IntValue(e2)]) == [FormatKey(season, e1), FormatKey(season, e2)]
  {
    var v, w := IntValue(e1), IntValue(e2);
    var a, b := FormatKey(season, e1), FormatKey(season, e2);
    BareNumber(Some(season), e1);
    BareNumber(Some(season), e2);
    SortKeysTie(Some(season), v, w);
    KeysOfTwo(Some(season), v, w, a, b);
    FormatInjective(season, e1, season, e2);
    TwoTied(a, b, SortKey);
  }

  lemma KeyFirst(season: Option<int>, v: Raw, rest: seq<Raw>, a: string)
    requires CanonicalKey(season, v) == Some(a)
    ensures KeyList(season, [v] + rest) == [a] + KeyList(season, rest)
  {
    assert ([v] + rest)[1..] == rest;
  }

  lemma KeysOfTwo(season: Option<int>, v: Raw, w: Raw, a: string, b: string)
    requires CanonicalKey(season, v) == Some(a) && CanonicalKey(season, w) == Some(b)
    ensures KeyList(season, [v, w]) == [a, b]
  {
    KeyFirst(season, v, [w], a);
    KeyFirst(season, w, [], b);
    assert [v] + [w] == [v, w] && [w] + [] == [w];
    assert KeyList(season, []) == [];
  }
}
