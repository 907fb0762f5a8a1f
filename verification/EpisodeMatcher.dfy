/** The two filename rules of app/transfer/episode_matcher.py over tokenised names. */
module EpisodeMatcher {
  import opened PyText
  import opened EpisodeKeys
  import opened Gathering

  /** What `\d{1,3}` and `\d{1,4}` can be worth. */
  type Digits3 = n: nat | n < 1000
  type Digits4 = n: nat | n < 10000

  /** One occurrence of `S<season>E<episode>` in a name. */
  datatype Token = Token(season: Digits3, episode: Digits4)

  /** A file or folder name with what the regular expressions find in it.
      Two names are the same text exactly when the records are equal. */
  datatype FileName = FileName(
    text: string,
    folded: string,                // text.casefold()
    isVideo: bool,                 // video extension
    isCollection: bool,
    isSpecial: bool,
    isRange: bool,                 // S..E..-E.. range of episodes
    full: seq<Token>,              // all S..E.. tokens, left to right
    short: seq<Digits4>,           // all E../EP../第..集 tokens, left to right
    resolution: nat,               // 4 for 2160p down to 0
    source: nat,
    hdr: nat,
    codec: nat,
    seasonLabel: Option<nat>       // season_identity(text), always positive
  )

  // ---------- extract_video_episode_keys ----------

  /** The key of a full token; `canonical_episode_key(int(season), f"E{int(episode)}")` reads season 0 as season 1. */
  function TokenKey(token: Token): Option<Key> {
    BareKey(Some(token.season), token.episode)
  }

  lemma TokenKeyIsCanonical(token: Token)
    ensures KeyOf(Some(token.season), TextValue("E" + Decimal(token.episode))) == TokenKey(token)
    ensures TokenKey(token).Some? <==> token.episode >= 1
    ensures TokenKey(token).Some? ==>
            TokenKey(token).value == Key(if token.season == 0 then 1 else token.season, token.episode)
  {
    BareEpisode(Some(token.season), token.episode);
  }

  function FullKeys(full: seq<Token>): seq<Key> {
    Gather(full, TokenKey)
  }

  function ShortKeys(known: int, short: seq<Digits4>): seq<Key> {
    Gather(short, (episode: Digits4) => BareKey(Some(known), episode))
  }

  /** Every key found in the name, with repetitions. */
  function KeyHits(name: FileName, known: Option<int>): seq<Key> {
    if !name.isVideo || name.isCollection || name.isSpecial then []
    else if FullKeys(name.full) != [] then FullKeys(name.full)
    else if known.Some? then ShortKeys(known.value, name.short)
    else []
  }

  function KeysIn(hits: seq<Key>): set<Key> {
    set k | k in hits
  }

  function FileKeys(name: FileName, known: Option<int>): set<Key> {
    KeysIn(KeyHits(name, known))
  }

  /** The key of a name with `len(keys) == 1`. */
  function SoleKey(name: FileName, known: Option<int>): (r: Option<Key>)
    ensures r.Some? ==> r.value.season >= 1 && 1 <= r.value.episode < 10000
    ensures r.Some? && r.value.season >= 1000 ==> known.Some? && r.value.season == known.value
  {
    var hits := KeyHits(name, known);
    HitsInRange(name, known);
    if hits != [] && forall i | 0 <= i < |hits| :: hits[i] == hits[0] then Some(hits[0]) else None
  }

  lemma SoleKeyIsSingleton(name: FileName, known: Option<int>)
    ensures forall k :: SoleKey(name, known) == Some(k) <==> FileKeys(name, known) == {k}
    ensures SoleKey(name, known).Some? <==> |FileKeys(name, known)| == 1
  {
    var hits := KeyHits(name, known);
    var keys := FileKeys(name, known);
    assert forall i | 0 <= i < |hits| :: hits[i] in keys;
    if hits == [] {
      assert keys == {};
    } else if SoleKey(name, known).Some? {
      assert keys == {hits[0]};
    } else {
      var i :| 0 <= i < |hits| && hits[i] != hits[0];
      assert |keys| == 1 + |keys - {hits[0]}|;
      assert hits[i] in keys - {hits[0]};
    }
  }

  lemma FullKeysIn(full: seq<Token>, k: Key)
    ensures k in FullKeys(full) <==> exists i :: 0 <= i < |full| && TokenKey(full[i]) == Some(k)
  {
    GatherIn(full, TokenKey, k);
  }

  lemma ShortKeysIn(known: int, short: seq<Digits4>, k: Key)
    ensures k in ShortKeys(known, short) <==> exists i :: 0 <= i < |short| && BareKey(Some(known), short[i]) == Some(k)
  {
    GatherIn(short, (episode: Digits4) => BareKey(Some(known), episode), k);
  }

  /** A single-episode or ordinary name: a video that is neither a collection nor a special. */
  predicate Regular(name: FileName) {
    name.isVideo && !name.isCollection && !name.isSpecial
  }

  /** Some full token names an episode from 1 on. */
  predicate HasFullKey(name: FileName) {
    exists i :: 0 <= i < |name.full| && name.full[i].episode >= 1
  }

  predicate FullTokenNames(name: FileName, k: Key) {
    exists i :: 0 <= i < |name.full| && Names(Some(name.full[i].season), k.season) && name.full[i].episode == k.episode
  }

  predicate ShortFormNames(name: FileName, known: Option<int>, k: Key) {
    known.Some? && Names(known, k.season) && k.season >= 1 &&
    exists i :: 0 <= i < |name.short| && name.short[i] == k.episode
  }

  lemma FullKeysAre(name: FileName, k: Key)
    ensures FullKeys(name.full) != [] <==> HasFullKey(name)
    ensures k in FullKeys(name.full) <==> k.episode >= 1 && FullTokenNames(name, k)
  {
    FullKeysIn(name.full, k);
    forall i | 0 <= i < |name.full|
      ensures TokenKey(name.full[i]) == Some(k) <==>
              k.episode >= 1 && Names(Some(name.full[i].season), k.season) && name.full[i].episode == k.episode
    {
      NamesEffective(Some(name.full[i].season), k.season);
    }
    if FullKeys(name.full) != [] {
      FullKeysIn(name.full, FullKeys(name.full)[0]);
    }
    if i :| 0 <= i < |name.full| && name.full[i].episode >= 1 {
      FullKeysIn(name.full, TokenKey(name.full[i]).value);
    }
  }

  /** The keys of a name are those of its full tokens if any of them has an episode from 1 on, else those of its short
      forms under a known season; season 0 is read as season 1 in both, and only regular names have keys at all. */
  lemma ExtractedIff(name: FileName, known: Option<int>, k: Key)
    ensures k in FileKeys(name, known) <==>
            Regular(name) && k.episode >= 1 &&
            if HasFullKey(name) then FullTokenNames(name, k) else ShortFormNames(name, known, k)
  {
    FullKeysAre(name, k);
    if known.Some? {
      ShortKeysIn(known.value, name.short, k);
      NamesEffective(known, k.season);
    }
  }

  lemma HitsInRange(name: FileName, known: Option<int>)
    ensures forall k | k in KeyHits(name, known) ::
              k.season >= 1 && 1 <= k.episode < 10000 && (k.season >= 1000 ==> known == Some(k.season))
  {
    forall k | k in KeyHits(name, known)
      ensures k.season >= 1 && 1 <= k.episode < 10000 && (k.season >= 1000 ==> known == Some(k.season))
    {
      FullKeysIn(name.full, k);
      if known.Some? {
        ShortKeysIn(known.value, name.short, k);
      }
    }
  }

  /** `canonical_episode_key(season, f"E{episode}")`. */
  method ReadToken(season: int, episode: Digits4) returns (key: Option<Key>)
    ensures key == BareKey(Some(season), episode)
  {
    BareEpisode(Some(season), episode);
    key := KeyOf(Some(season), TextValue("E" + Decimal(episode)));
  }

  method CollectFull(full: seq<Token>) returns (keys: set<Key>)
    ensures keys == KeysIn(FullKeys(full))
  {
    keys := {};
    for i := 0 to |full|
      invariant keys == KeysIn(FullKeys(full[..i]))
    {
      var key := ReadToken(full[i].season, full[i].episode);
      GatherStep(full, i, TokenKey);
      if key.Some? {
        keys := keys + {key.value};
      }
    }
    assert full[..|full|] == full;
  }

  method CollectShort(known: int, short: seq<Digits4>) returns (keys: set<Key>)
    ensures keys == KeysIn(ShortKeys(known, short))
  {
    keys := {};
    for i := 0 to |short|
      invariant keys == KeysIn(ShortKeys(known, short[..i]))
    {
      var key := ReadToken(known, short[i]);
      GatherStep(short, i, (episode: Digits4) => BareKey(Some(known), episode));
      if key.Some? {
        keys := keys + {key.value};
      }
    }
    assert short[..|short|] == short;
  }

  lemma NoHits(hits: seq<Key>)
    ensures hits != [] ==> KeysIn(hits) != {}
  {
    if hits != [] {
      assert hits[0] in KeysIn(hits);
    }
  }

  method ExtractVideoEpisodeKeys(name: FileName, known: Option<int>) returns (keys: set<Key>)
    ensures keys == FileKeys(name, known)
  {
    if !name.isVideo || name.isCollection || name.isSpecial {
      return {};
    }
    keys := CollectFull(name.full);
    NoHits(FullKeys(name.full));
    if keys == {} && known.Some? {
      keys := CollectShort(known.value, name.short);
    }
  }

  // ---------- diagnose_episode_match ----------

  datatype MatchResult = Match | Reject | Review

  datatype Reason =
    | NoReason
    | NotVideoFile
    | CollectionNotSingleEpisode
    | SpecialNotRegularEpisode
    | FullKeyMismatch
    | ShortFormRequiresConfirmedSeason
    | ShortFormEpisodeMismatch
    | BareNumberUnsupported

  datatype MatchRow = MatchRow(result: MatchResult, reason: Reason)

  /** One row of the diagnosis: only the first full token counts, or else the first short one. */
  function Diagnose(target: Key, known: Option<int>, name: FileName): MatchRow {
    if !name.isVideo then MatchRow(Reject, NotVideoFile)
    else if name.isCollection then MatchRow(Review, CollectionNotSingleEpisode)
    else if name.isSpecial then MatchRow(Review, SpecialNotRegularEpisode)
    else if name.full != [] then
      if name.full[0].season == target.season && name.full[0].episode == target.episode then MatchRow(Match, NoReason)
      else MatchRow(Reject, FullKeyMismatch)
    else if name.short != [] then
      if known.None? then MatchRow(Reject, ShortFormRequiresConfirmedSeason)
      else if known.value == target.season && name.short[0] == target.episode then MatchRow(Match, NoReason)
      else MatchRow(Reject, ShortFormEpisodeMismatch)
    else MatchRow(Reject, BareNumberUnsupported)
  }

  predicate Matches(target: Key, known: Option<int>, name: FileName) {
    Diagnose(target, known, name).result == Match
  }

  // ---------- the two rules agree ----------

  /** Whatever the diagnosis accepts for a regular target, the extractor finds in the name. */
  lemma MatchIsExtracted(target: Key, known: Option<int>, name: FileName)
    requires target.season >= 1 && target.episode >= 1
    requires Matches(target, known, name)
    ensures target in FileKeys(name, known)
  {
    if name.full != [] {
      assert TokenKey(name.full[0]) == Some(target);
      FullKeysIn(name.full, target);
    } else {
      assert BareKey(known, name.short[0]) == Some(target);
      ShortKeysIn(known.value, name.short, target);
    }
  }

  /** What a name without a match is, by the first thing that rules it out. */
  lemma DiagnosedAs(target: Key, known: Option<int>, name: FileName)
    ensures var row := Diagnose(target, known, name);
            && (row.result == Review <==> name.isVideo && (name.isCollection || name.isSpecial))
            && (row.reason == NotVideoFile <==> !name.isVideo)
            && (row.reason == CollectionNotSingleEpisode <==> name.isVideo && name.isCollection)
            && (row.reason == FullKeyMismatch <==> Regular(name) && name.full != [] && row.result != Match)
            && (row.reason == BareNumberUnsupported <==> Regular(name) && name.full == [] && name.short == [])
            && (row.reason == ShortFormRequiresConfirmedSeason <==>
                Regular(name) && name.full == [] && name.short != [] && known == None)
            && (row.reason == NoReason <==> row.result == Match)
  {
  }

  /** The guard a caller can read off the name: the first token carries no zero, and a short form is not
      read under the season context 0, which only the extractor turns into season 1. */
  predicate PlainFirstToken(name: FileName, known: Option<int>) {
    if name.full != [] then name.full[0].season >= 1 && name.full[0].episode >= 1
    else name.short != [] && name.short[0] >= 1 && known != Some(0)
  }

  /** Conversely, a sole extracted key is matched exactly when the name passes that guard. */
  lemma SoleKeyMatchesIff(name: FileName, known: Option<int>)
    requires SoleKey(name, known).Some?
    ensures Matches(SoleKey(name, known).value, known, name) <==> PlainFirstToken(name, known)
  {
    var key := SoleKey(name, known).value;
    var hits := KeyHits(name, known);
    if PlainFirstToken(name, known) {
      if name.full != [] {
        var first := Key(name.full[0].season, name.full[0].episode);
        assert TokenKey(name.full[0]) == Some(first);
        FullKeysIn(name.full, first);
      } else {
        ShortKeysIn(known.value, name.short, hits[0]);
        var first := Key(known.value, name.short[0]);
        assert BareKey(known, name.short[0]) == Some(first);
        ShortKeysIn(known.value, name.short, first);
      }
    }
  }

  /** The file `S00E05` shows the gap: extracted as season 1, matched as season 0 only. */
  lemma ZeroSeasonDisagrees(name: FileName, known: Option<int>)
    requires name.isVideo && !name.isCollection && !name.isSpecial && name.full == [Token(0, 5)]
    ensures FileKeys(name, known) == {Key(1, 5)}
    ensures !Matches(Key(1, 5), known, name) && Matches(Key(0, 5), known, name)
  {
    assert TokenKey(name.full[0]) == Some(Key(1, 5));
    assert Gather(name.full[..0], TokenKey) == [];
    assert FullKeys(name.full) == [Key(1, 5)];
  }

  // ---------- target keys ----------

  predicate IsSeparator(c: char) {
    c == ' ' || c == '.' || c == '_' || c == '-'
  }

  function DigitRun(s: string): (n: nat)
    ensures n <= |s| && AllDigits(s[..n])
  {
    if s != "" && IsDigit(s[0]) then 1 + DigitRun(s[1..]) else 0
  }

  function SkipSeparators(s: string): string {
    if s != "" && IsSeparator(s[0]) then SkipSeparators(s[1..]) else s
  }

  /** `_target_parts`: a text that is one full token and nothing else. */
  function TargetParts(text: string): (r: Option<Token>)
  {
    var t := Upper(Strip(text));
    if t == "" || t[0] != 'S' then None else
      var n := DigitRun(t[1..]);
      var season := t[1..][..n];
      var rest := SkipSeparators(t[1..][n..]);
      if 1 <= n <= 3 && 2 <= |rest| <= 5 && rest[0] == 'E' && AllDigits(rest[1..]) then
        ShortNumerals(season, rest[1..]);
        Some(Token(Value(season), Value(rest[1..])))
      else
        None
  }
}
