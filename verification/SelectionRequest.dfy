/** What a request asks for: mode, target, refusals and explicit choices (app/transfer/file_selection.py). */
module SelectionRequest {
  import opened PyText
  import opened Gathering
  import opened EpisodeKeys
  import opened EpisodeMatcher
  import opened FileSelection

  // ---------- arguments ----------

  /** Some value has something besides white space. */
  predicate Given(values: seq<string>) {
    exists i :: 0 <= i < |values| && Strip(values[i]) != ""
  }

  predicate GivenTwice(values: seq<string>) {
    exists i, j :: 0 <= i < j < |values| && Strip(values[i]) != "" && Strip(values[j]) != ""
  }

  lemma {:induction false} CleanedCounts(values: seq<string>)
    ensures Cleaned(values) != [] <==> Given(values)
    ensures |Cleaned(values)| > 1 <==> GivenTwice(values)
  {
    if values != [] {
      var n := |values| - 1;
      var front := values[..n];
      CleanedCounts(front);
      assert forall i | 0 <= i < n :: front[i] == values[i];
    }
  }

  /** The text is one of the values, white space around it aside. */
  predicate Lists(values: seq<string>, x: string) {
    x != "" && exists i :: 0 <= i < |values| && Strip(values[i]) == x
  }

  lemma CleanedIn(values: seq<string>, x: string)
    ensures x in Cleaned(values) <==> Lists(values, x)
  {
    GatherIn(values, CleanText, x);
  }

  /** The mode is the one named, or follows from what else is given: several episode keys, one, expected names, or
      nothing. */
  lemma ModeByArguments(q: Request)
    ensures ResolveMode(q) == None <==> q.mode == UnknownMode
    ensures q.mode.Mode? ==> ResolveMode(q) == Some(q.mode.mode)
    ensures q.mode == NoMode ==>
              && (ResolveMode(q) == Some(MissingEpisodes) <==> GivenTwice(q.episodeKeys))
              && (ResolveMode(q) == Some(SingleEpisode) <==> Given(q.episodeKeys) && !GivenTwice(q.episodeKeys))
              && (ResolveMode(q) == Some(Collection) <==> !Given(q.episodeKeys) && Given(q.wantedNames))
              && (ResolveMode(q) == Some(WholeShare) <==> !Given(q.episodeKeys) && !Given(q.wantedNames))
  {
    CleanedCounts(q.episodeKeys);
    CleanedCounts(q.wantedNames);
  }

  /** The target: the one named, or else the only episode key. */
  lemma TargetByArguments(q: Request, x: string)
    ensures q.target != "" ==> TargetText(q) == Strip(q.target)
    ensures q.target == "" && x != "" ==>
              (TargetText(q) == x <==> !GivenTwice(q.episodeKeys) && Lists(q.episodeKeys, x))
  {
    CleanedCounts(q.episodeKeys);
    CleanedIn(q.episodeKeys, x);
    var keys := Cleaned(q.episodeKeys);
    if q.target == "" && |keys| == 1 {
      CleanedIn(q.episodeKeys, keys[0]);
      assert keys[0] in keys;
      assert x in keys <==> x == keys[0];
    }
  }

  // ---------- target keys ----------

  predicate Separators(s: string) {
    forall i | 0 <= i < |s| :: s[i] == ' ' || s[i] == '.' || s[i] == '_' || s[i] == '-'
  }

  /** A text `S<1 to 3 digits><separators>E<1 to 4 digits>`, in any letter case, with white space around it. */
  predicate Spells(text: string, season: string, gap: string, episode: string) {
    && AllDigits(season) && 1 <= |season| <= 3 && Separators(gap) && AllDigits(episode) && 1 <= |episode| <= 4
    && Upper(Strip(text)) == "S" + season + gap + "E" + episode
  }

  lemma {:induction false} DigitRunOf(digits: string, rest: string)
    requires AllDigits(digits) && (rest != "" ==> !IsDigit(rest[0]))
    ensures DigitRun(digits + rest) == |digits|
  {
    if digits != "" {
      DigitRunOf(digits[1..], rest);
      assert (digits + rest)[1..] == digits[1..] + rest;
    } else {
      assert digits + rest == rest;
    }
  }

  lemma {:induction false} DigitRunStops(s: string)
    ensures DigitRun(s) < |s| ==> !IsDigit(s[DigitRun(s)])
  {
    if s != "" && IsDigit(s[0]) {
      DigitRunStops(s[1..]);
    }
  }

  lemma {:induction false} SkipOver(gap: string, rest: string)
    requires Separators(gap) && (rest != "" ==> !IsSeparator(rest[0]))
    ensures SkipSeparators(gap + rest) == rest
  {
    if gap != "" {
      SkipOver(gap[1..], rest);
      assert (gap + rest)[1..] == gap[1..] + rest;
    } else {
      assert gap + rest == rest;
    }
  }

  lemma SeparatorFirst(c: char, tail: string)
    requires IsSeparator(c) && Separators(tail)
    ensures Separators([c] + tail)
  {
    assert forall i | 1 <= i < |tail| + 1 :: ([c] + tail)[i] == tail[i - 1];
  }

  lemma HeadAndTail(s: string)
    requires s != ""
    ensures s == [s[0]] + s[1..]
  {
  }

  lemma {:induction false} SkippedGap(s: string) returns (gap: string)
    ensures Separators(gap) && s == gap + SkipSeparators(s)
  {
    if s != "" && IsSeparator(s[0]) {
      var tail := SkippedGap(s[1..]);
      gap := [s[0]] + tail;
      SeparatorFirst(s[0], tail);
      HeadAndTail(s);
    } else {
      gap := "";
    }
  }

  lemma SpelledIsRead(text: string, season: string, gap: string, episode: string)
    requires Spells(text, season, gap, episode)
    ensures Value(season) < 1000 && Value(episode) < 10000
    ensures TargetParts(text) == Some(Token(Value(season), Value(episode)))
  {
    ShortNumerals(season, episode);
    var t := Upper(Strip(text));
    assert t[1..] == season + (gap + ("E" + episode));
    DigitRunOf(season, gap + ("E" + episode));
    assert t[1..][..|season|] == season && t[1..][|season|..] == gap + ("E" + episode);
    SkipOver(gap, "E" + episode);
    assert ("E" + episode)[1..] == episode;
  }

  lemma Parts(t: string, n: nat, gap: string, rest: string)
    requires n <= |t| && t[n..] == gap + rest && rest != "" && rest[0] == 'E'
    ensures "S" + t == "S" + t[..n] + gap + "E" + rest[1..]
  {
    assert t == t[..n] + (gap + rest);
    HeadAndTail(rest);
  }

  lemma ReadIsSpelled(text: string) returns (season: string, gap: string, episode: string)
    requires TargetParts(text).Some?
    ensures Spells(text, season, gap, episode)
  {
    var t := Upper(Strip(text));
    var n := DigitRun(t[1..]);
    season := t[1..][..n];
    gap := SkippedGap(t[1..][n..]);
    var rest := SkipSeparators(t[1..][n..]);
    episode := rest[1..];
    HeadAndTail(t);
    HeadAndTail(rest);
    Parts(t[1..], n, gap, rest);
  }

  /** A target is read exactly when it spells out one season and episode, and as those numbers. */
  lemma TargetIsSpelled(text: string, token: Token)
    ensures TargetParts(text) == Some(token) <==>
            exists season, gap, episode ::
              Spells(text, season, gap, episode) && Value(season) == token.season && Value(episode) == token.episode
  {
    if TargetParts(text) == Some(token) {
      var season, gap, episode := ReadIsSpelled(text);
      SpelledIsRead(text, season, gap, episode);
    }
    if season, gap, episode :| Spells(text, season, gap, episode) && Value(season) == token.season &&
                               Value(episode) == token.episode {
      SpelledIsRead(text, season, gap, episode);
    }
  }

  // ---------- refusals ----------

  /** Every refusal and its reason; the first that applies is given. */
  lemma RefusedIff(files: seq<RemoteFile>, q: Request)
    ensures var single := q.mode == Mode(SingleEpisode);
            var unknown, many := q.mode == UnknownMode, single && GivenTwice(q.episodeKeys) && q.target == "";
            var clash := exists f, g :: f in files && g in files && IsVideoFile(f) && IsVideoFile(g) && Clash(f, g);
            var misread := TargetText(q) != "" && TargetParts(TargetText(q)).None?;
            && (Select(files, q) == Refused(UnknownSelectionMode) <==> unknown)
            && (Select(files, q) == Refused(ManyTargets) <==> !unknown && many)
            && (Select(files, q) == Refused(DuplicateFileIdConflict) <==> !unknown && !many && clash)
            && (Select(files, q) == Refused(InvalidTargetEpisode) <==> !unknown && !many && !clash && misread)
  {
    ModeByArguments(q);
    CleanedCounts(q.episodeKeys);
    RefusedIffClash(files);
  }

  // ---------- COLLECTION ----------

  /** The names asked for: those selected, or those expected if nothing at all is selected. */
  predicate NameAsked(q: Request, name: string) {
    if Given(q.selectedIds) || Given(q.selectedNames) then Lists(q.selectedNames, name) else Lists(q.wantedNames, name)
  }

  predicate IdAsked(q: Request, id: string) {
    Lists(q.selectedIds, id)
  }

  ghost predicate SomethingAsked(q: Request) {
    (exists n :: NameAsked(q, n)) || (exists id :: IdAsked(q, id))
  }

  ghost predicate AllListed(u: seq<RemoteFile>, q: Request) {
    && (forall n | NameAsked(q, n) :: exists f :: f in u && f.name.text == n)
    && (forall id | IdAsked(q, id) :: exists f :: f in u && f.id == id)
  }

  /** A collection is decided iff something is asked for and everything asked for is listed. */
  lemma CollectionChosenIff(u: seq<RemoteFile>, target: Option<Token>, q: Request)
    ensures var s := SelectCollection(u, target, q);
            && (s.choice == CollectionRequired <==> !SomethingAsked(q))
            && (s.choice == CollectionChosen <==> SomethingAsked(q) && AllListed(u, q))
  {
    var ids := Cleaned(q.selectedIds);
    var names :=
      if ids == [] && Cleaned(q.selectedNames) == [] then Cleaned(q.wantedNames) else Cleaned(q.selectedNames);
    AskedAreCleaned(q, ids, names);
    WantedAll(u, ids, names);
    assert ids != [] ==> ids[0] in ids;
    assert names != [] ==> names[0] in names;
  }

  /** It then holds exactly the files asked for, and otherwise nothing. */
  lemma CollectionExact(u: seq<RemoteFile>, target: Option<Token>, q: Request)
    ensures var s := SelectCollection(u, target, q);
            if s.choice == CollectionChosen then
              forall f :: f in s.selected <==> f in u && (NameAsked(q, f.name.text) || IdAsked(q, f.id))
            else s.selected == []
  {
    var ids := Cleaned(q.selectedIds);
    var names :=
      if ids == [] && Cleaned(q.selectedNames) == [] then Cleaned(q.wantedNames) else Cleaned(q.selectedNames);
    AskedAreCleaned(q, ids, names);
    WantedAll(u, ids, names);
  }

  lemma AskedAreCleaned(q: Request, ids: seq<string>, names: seq<string>)
    requires ids == Cleaned(q.selectedIds)
    requires names ==
             if ids == [] && Cleaned(q.selectedNames) == [] then Cleaned(q.wantedNames) else Cleaned(q.selectedNames)
    ensures forall x :: x in ids <==> IdAsked(q, x)
    ensures forall x :: x in names <==> NameAsked(q, x)
  {
    CleanedCounts(q.selectedIds);
    CleanedCounts(q.selectedNames);
    forall x
      ensures x in ids <==> IdAsked(q, x)
      ensures x in names <==> NameAsked(q, x)
    {
      CleanedIn(q.selectedIds, x);
      CleanedIn(q.selectedNames, x);
      CleanedIn(q.wantedNames, x);
    }
  }

  lemma WantedAll(u: seq<RemoteFile>, ids: seq<string>, names: seq<string>)
    requires "" !in ids && "" !in names
    ensures var wanted := Gather(u, WantedRule(ids, names));
            && (forall f :: f in wanted <==> f in u && (f.name.text in names || f.id in ids))
            && (forall id | id in ids :: id in Ids(wanted) <==> exists f :: f in u && f.id == id)
            && (forall n | n in names ::
                  (exists f :: f in wanted && f.name.text == n) <==> (exists f :: f in u && f.name.text == n))
  {
    var wanted := Gather(u, WantedRule(ids, names));
    forall f
      ensures f in wanted <==> f in u && (f.name.text in names || f.id in ids)
    {
      GatherIn(u, WantedRule(ids, names), f);
    }
    forall id | id in ids
      ensures id in Ids(wanted) <==> exists f :: f in u && f.id == id
    {
      GatherIn(wanted, IdOf, id);
      if f :| f in u && f.id == id {
        IdsIn(wanted, f);
      }
    }
  }
}
