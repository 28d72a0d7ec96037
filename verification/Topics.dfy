/** Topic names and filters: levels, validation and matching, section 4.7 of MQTT 3.1.1. */
module Topics {
  import opened Common
  import opened Errors

  const SLASH: byte := 0x2F
  const PLUS: byte := 0x2B
  const HASH: byte := 0x23

  /** `str::split('/')`: never empty, and "" splits into one empty level. */
  function Split(s: Str): (levels: seq<Str>)
    ensures levels != []
  {
    if s == [] then [[]]
    else
      var rest := Split(s[1..]);
      if s[0] == SLASH then [[]] + rest else [[s[0]] + rest[0]] + rest[1..]
  }

  function Join(levels: seq<Str>): Str
    requires levels != []
  {
    if |levels| == 1 then levels[0] else levels[0] + [SLASH] + Join(levels[1..])
  }

  lemma {:induction false} JoinSplit(s: Str)
    ensures Join(Split(s)) == s
  {
    if s != [] {
      var rest := Split(s[1..]);
      JoinSplit(s[1..]);
      if s[0] == SLASH {
        assert Split(s)[1..] == rest;
      } else if |rest| > 1 {
        assert Split(s)[1..] == rest[1..];
      }
    }
  }

  /** A level never contains a slash, and holds only bytes of the split string. */
  lemma {:induction false} SplitLevels(s: Str, i: nat, b: byte)
    requires i < |Split(s)| && b in Split(s)[i]
    ensures b != SLASH && b in s
  {
    var rest := Split(s[1..]);
    if s[0] == SLASH {
      assert i >= 1;
      SplitLevels(s[1..], i - 1, b);
    } else if i > 0 {
      SplitLevels(s[1..], i, b);
    } else if b in rest[0] {
      SplitLevels(s[1..], 0, b);
    }
  }

  lemma {:induction false} SplitCons(level: Str, rest: Str)
    requires SLASH !in level
    ensures Split(level + [SLASH] + rest) == [level] + Split(rest)
    ensures Split(level) == [level]
  {
    var s := level + [SLASH] + rest;
    if level == [] {
      assert s[1..] == rest;
    } else {
      SplitCons(level[1..], rest);
      assert s[1..] == level[1..] + [SLASH] + rest;
      assert [level[0]] + level[1..] == level;
    }
  }

  lemma {:induction false} SplitJoin(levels: seq<Str>)
    requires levels != [] && forall i :: 0 <= i < |levels| ==> SLASH !in levels[i]
    ensures Split(Join(levels)) == levels
  {
    if |levels| == 1 {
      SplitCons(levels[0], []);
    } else {
      SplitJoin(levels[1..]);
      SplitCons(levels[0], Join(levels[1..]));
    }
  }

  /** The filters that the broker broadcasts to all its shards. */
  predicate IsWildcard(filter: Str) {
    PLUS in filter || HASH in filter
  }

  // ---- Validation, sections 4.7.1 and 4.7.3 ----

  /** What a legal filter is: wildcards stand alone on their level, and '#' on the last one. */
  predicate ValidFilter(filter: Str) {
    var levels := Split(filter);
    && filter != []
    && forall i :: 0 <= i < |levels| ==> LegalLevel(levels, i)
  }

  predicate LegalLevel(levels: seq<Str>, i: nat)
    requires i < |levels|
  {
    && (HASH in levels[i] ==> levels[i] == [HASH] && i == |levels| - 1)
    && (PLUS in levels[i] ==> levels[i] == [PLUS])
  }

  function ValidateFrom(levels: seq<Str>, i: nat): Decoded<()>
    requires i <= |levels|
    decreases |levels| - i
  {
    if i == |levels| then Ok(())
    else if HASH in levels[i] && levels[i] != [HASH] then Err(MalformedPayload(HashNotAlone))
    else if HASH in levels[i] && i != |levels| - 1 then Err(MalformedPayload(HashNotLast))
    else if HASH !in levels[i] && PLUS in levels[i] && levels[i] != [PLUS] then
      Err(MalformedPayload(PlusNotAlone))
    else ValidateFrom(levels, i + 1)
  }

  function Validate(filter: Str): Decoded<()> {
    if filter == [] then Err(MalformedPayload(EmptyFilter)) else ValidateFrom(Split(filter), 0)
  }

  lemma {:induction false} ValidateFromLegal(levels: seq<Str>, i: nat)
    requires i <= |levels|
    ensures ValidateFrom(levels, i).Ok? <==> forall j :: i <= j < |levels| ==> LegalLevel(levels, j)
    ensures ValidateFrom(levels, i).Err? ==> ValidateFrom(levels, i).error.MalformedPayload?
    decreases |levels| - i
  {
    if i < |levels| {
      ValidateFromLegal(levels, i + 1);
      assert LegalLevel(levels, i) || !LegalLevel(levels, i);
    }
  }

  /** Validation accepts exactly the legal filters. */
  lemma ValidateAccepts(filter: Str)
    ensures Validate(filter).Ok? <==> ValidFilter(filter)
    ensures Validate(filter).Err? ==> Validate(filter).error.MalformedPayload?
  {
    ValidateFromLegal(Split(filter), 0);
  }

  /** The first level that is not legal, and what is wrong with it. */
  ghost predicate FirstDefect(levels: seq<Str>, i: nat, j: nat, d: Defect) {
    && i <= j < |levels| && !LegalLevel(levels, j)
    && (forall k :: i <= k < j ==> LegalLevel(levels, k))
    && d == if '#' as int !in levels[j] then PlusNotAlone
            else if levels[j] != ['#' as int] then HashNotAlone else HashNotLast
  }

  lemma {:induction false} ValidateFromDefect(levels: seq<Str>, i: nat) returns (j: nat)
    requires i <= |levels| && ValidateFrom(levels, i).Err?
    ensures ValidateFrom(levels, i).error.MalformedPayload?
    ensures FirstDefect(levels, i, j, ValidateFrom(levels, i).error.defect)
    decreases |levels| - i
  {
    if LegalLevel(levels, i) {
      j := ValidateFromDefect(levels, i + 1);
    } else {
      j := i;
    }
  }

  /** A rejected filter is empty, or the verdict names the defect of its first level that is not legal. */
  lemma ValidateReports(filter: Str)
    requires Validate(filter).Err?
    ensures Validate(filter).error.MalformedPayload?
    ensures filter == [] <==> Validate(filter).error.defect == EmptyFilter
    ensures filter != [] ==> exists j: nat :: FirstDefect(Split(filter), 0, j, Validate(filter).error.defect)
  {
    if filter != [] {
      var j := ValidateFromDefect(Split(filter), 0);
    }
  }

  method ValidateTopicFilter(filter: Str) returns (r: Decoded<()>)
    ensures r == Validate(filter)
  {
    if filter == [] {
      return Err(MalformedPayload(EmptyFilter));
    }
    var levels := Split(filter);
    var lastIndex := |levels| - 1;
    for i := 0 to |levels|
      invariant ValidateFrom(levels, 0) == ValidateFrom(levels, i)
    {
      var level := levels[i];
      if HASH in level {
        if level != [HASH] {
          return Err(MalformedPayload(HashNotAlone));
        }
        if i != lastIndex {
          return Err(MalformedPayload(HashNotLast));
        }
      } else if PLUS in level && level != [PLUS] {
        return Err(MalformedPayload(PlusNotAlone));
      }
    }
    return Ok(());
  }

  // ---- Matching, section 4.7.1 ----

  /** The number of levels before the first '#', or of all levels when there is none. */
  function Fixed(fs: seq<Str>): (h: nat)
    ensures h <= |fs| && [HASH] !in fs[..h]
    ensures h < |fs| ==> fs[h] == [HASH]
  {
    if fs == [] || fs[0] == [HASH] then 0 else
      var h := Fixed(fs[1..]);
      assert fs[..1 + h] == [fs[0]] + fs[1..][..h];
      1 + h
  }

  /** Topic levels against filter levels: pointwise modulo '+' up to the first '#', which takes the rest. */
  ghost predicate LevelsMatch(ts: seq<Str>, fs: seq<Str>) {
    && Fixed(fs) <= |ts|
    && (Fixed(fs) == |fs| ==> |ts| == |fs|)
    && forall i :: 0 <= i < Fixed(fs) ==> fs[i] == [PLUS] || fs[i] == ts[i]
  }

  ghost predicate Matches(topic: Str, filter: Str) {
    LevelsMatch(Split(topic), Split(filter))
  }

  lemma FixedIs(fs: seq<Str>, h: nat)
    requires h <= |fs| && (h < |fs| ==> fs[h] == [HASH])
    requires forall i :: 0 <= i < h ==> fs[i] != [HASH]
    ensures Fixed(fs) == h
  {
    var k := Fixed(fs);
    assert forall j :: 0 <= j < k ==> fs[j] == fs[..k][j] != [HASH];
  }

  // ---- The same in characters ----

  /** The text in front of the first slash, or all of it. */
  function Head(s: Str): (h: Str)
    ensures '/' as int !in h
  {
    if s == [] || s[0] == '/' as int then [] else [s[0]] + Head(s[1..])
  }

  /** The text behind the first slash. */
  function Tail(s: Str): (t: Str)
    requires '/' as int in s
    ensures |t| < |s|
  {
    if s[0] == '/' as int then s[1..] else Tail(s[1..])
  }

  /** Sections 4.7.1.2 and 4.7.1.3 on the text itself: a '#' takes all that is left, even nothing; a '+' takes any text
      up to the next slash; anything else takes itself. */
  predicate Agrees(topic: Str, filter: Str)
    decreases |filter|
  {
    Head(filter) == ['#' as int] ||
    ((Head(filter) == ['+' as int] || Head(filter) == Head(topic)) &&
     if '/' as int !in filter then '/' as int !in topic
     else if '/' as int !in topic then Head(Tail(filter)) == ['#' as int]
     else Agrees(Tail(topic), Tail(filter)))
  }

  lemma {:induction false} SplitText(s: Str)
    ensures Split(s) == if '/' as int in s then [Head(s)] + Split(Tail(s)) else [s]
    ensures '/' as int !in s ==> Head(s) == s
    ensures '/' as int in s ==> s == Head(s) + ['/' as int] + Tail(s)
  {
    if s != [] {
      SplitText(s[1..]);
      assert s == [s[0]] + s[1..];
    }
  }

  lemma FixedCons(f: Str, fs: seq<Str>)
    requires f != [HASH]
    ensures Fixed([f] + fs) == 1 + Fixed(fs)
  {
    assert ([f] + fs)[1..] == fs;
  }

  /** Matching, level by level from the front. */
  lemma LevelsMatchCons(t: Str, ts: seq<Str>, f: Str, fs: seq<Str>)
    requires f != [HASH]
    ensures LevelsMatch([t] + ts, [f] + fs) <==> (f == [PLUS] || f == t) && LevelsMatch(ts, fs)
  {
    FixedCons(f, fs);
    hide Fixed;
    var us, gs := [t] + ts, [f] + fs;
    if LevelsMatch(us, gs) {
      assert gs[0] == [PLUS] || gs[0] == us[0];
      forall i | 0 <= i < Fixed(fs)
        ensures fs[i] == [PLUS] || fs[i] == ts[i]
      {
        assert gs[i + 1] == [PLUS] || gs[i + 1] == us[i + 1];
      }
    }
  }

  lemma LevelsMatchEnds(ts: seq<Str>, f: Str, fs: seq<Str>)
    ensures LevelsMatch(ts, [[HASH]] + fs)
    ensures LevelsMatch(ts, []) <==> ts == []
    ensures f != [HASH] ==> !LevelsMatch([], [f] + fs)
  {
    FixedIs([[HASH]] + fs, 0);
    FixedIs([], 0);
    if f != [HASH] {
      FixedCons(f, fs);
    }
  }

  /** The rest of a topic or a filter, as levels. */
  function Further(s: Str): seq<Str> {
    if '/' as int in s then Split(Tail(s)) else []
  }

  lemma SplitFurther(s: Str)
    ensures Split(s) == [Head(s)] + Further(s)
  {
    SplitText(s);
  }

  /** The relation on levels and the relation on characters are the same. */
  lemma {:induction false} AgreesIsMatches(topic: Str, filter: Str)
    ensures Matches(topic, filter) <==> Agrees(topic, filter)
    decreases |filter|
  {
    hide Split, LevelsMatch, Fixed;
    SplitFurther(topic);
    SplitFurther(filter);
    var t, f := Head(topic), Head(filter);
    if f == ['#' as int] {
      LevelsMatchEnds(Split(topic), f, Further(filter));
    } else {
      LevelsMatchCons(t, Further(topic), f, Further(filter));
      if '/' as int !in filter {
        LevelsMatchEnds(Further(topic), f, []);
      } else if '/' as int !in topic {
        SplitFurther(Tail(filter));
        LevelsMatchEnds([], Head(Tail(filter)), Further(Tail(filter)));
      } else {
        AgreesIsMatches(Tail(topic), Tail(filter));
      }
    }
  }

  /** The matching loop. */
  method TopicMatchesFilter(topic: Str, filter: Str) returns (b: bool)
    ensures b <==> Matches(topic, filter)
    ensures b <==> Agrees(topic, filter)
  {
    AgreesIsMatches(topic, filter);
    var topicLevels := Split(topic);
    var filterLevels := Split(filter);
    var ti, fi := 0, 0;
    while fi < |filterLevels|
      invariant 0 <= fi <= |filterLevels| && ti == fi <= |topicLevels|
      invariant forall i :: 0 <= i < fi ==>
          filterLevels[i] != [HASH] && (filterLevels[i] == [PLUS] || filterLevels[i] == topicLevels[i])
    {
      var level := filterLevels[fi];
      if level == [HASH] {
        FixedIs(filterLevels, fi);
        return true;
      }
      assert Fixed(filterLevels) > fi;
      if ti >= |topicLevels| {
        return false;
      }
      if level != [PLUS] && level != topicLevels[ti] {
        return false;
      }
      ti := ti + 1;
      fi := fi + 1;
    }
    FixedIs(filterLevels, fi);
    return ti == |topicLevels|;
  }

  /** For a legal filter: equal length and pointwise agreement, or agreement before a final '#'. */
  lemma ValidFilterMatches(topic: Str, filter: Str)
    requires ValidFilter(filter)
    ensures var ts, fs := Split(topic), Split(filter);
            var n := |fs| - 1;
            Matches(topic, filter) <==>
            if fs[n] == [HASH]
            then n <= |ts| && forall i :: 0 <= i < n ==> fs[i] == [PLUS] || fs[i] == ts[i]
            else |ts| == |fs| && forall i :: 0 <= i < |fs| ==> fs[i] == [PLUS] || fs[i] == ts[i]
  {
    var fs := Split(filter);
    var n := |fs| - 1;
    forall i | 0 <= i < n
      ensures fs[i] != [HASH]
    {
      assert LegalLevel(fs, i);
      assert [HASH][0] == HASH;
    }
    FixedIs(fs, if fs[n] == [HASH] then n else |fs|);
  }

  /** A filter without wildcards matches one topic only: itself. */
  lemma PlainFilterMatches(topic: Str, filter: Str)
    requires !IsWildcard(filter)
    ensures Matches(topic, filter) <==> topic == filter
  {
    var ts, fs := Split(topic), Split(filter);
    forall i | 0 <= i < |fs|
      ensures fs[i] != [HASH] && fs[i] != [PLUS]
    {
      if fs[i] == [HASH] || fs[i] == [PLUS] {
        SplitLevels(filter, i, fs[i][0]);
      }
    }
    FixedIs(fs, |fs|);
    if Matches(topic, filter) {
      assert ts == fs;
    }
    JoinSplit(topic);
    JoinSplit(filter);
  }

  /** Every string matches itself, so a lookup by the topic's own name never finds a filter that does not match. */
  lemma MatchesItself(topic: Str)
    ensures Matches(topic, topic)
  {
  }

  /** The levels of a valid filter hold no '/', and only the last can be '#'. */
  lemma LevelsOfValid(filter: Str, j: nat)
    requires ValidFilter(filter) && j < |Split(filter)|
    ensures SLASH !in Split(filter)[j]
    ensures j < |Split(filter)| - 1 ==> Split(filter)[j] != [HASH]
  {
    var fs := Split(filter);
    if SLASH in fs[j] {
      SplitLevels(filter, j, SLASH);
    }
    assert LegalLevel(fs, j);
    assert [HASH][0] == HASH;
  }

  lemma HashWidens(topic: Str, filter: Str, i: nat)
    requires ValidFilter(filter) && i < |Split(filter)| && Matches(topic, filter)
    ensures Matches(topic, Join(Split(filter)[..i] + [[HASH]]))
  {
    hide ValidFilter, Split, Join;
    var fs := Split(filter);
    forall j | 0 <= j < i
      ensures SLASH !in fs[j] && fs[j] != [HASH]
    {
      LevelsOfValid(filter, j);
    }
    var wide := fs[..i] + [[HASH]];
    SplitJoin(wide);
    FixedIs(wide, i);
    assert i <= Fixed(fs);
    assert LevelsMatch(Split(topic), wide);
  }

  lemma PlusWidens(topic: Str, filter: Str, i: nat)
    requires ValidFilter(filter) && i < |Split(filter)| && Matches(topic, filter)
    requires Split(filter)[i] != [HASH]
    ensures Matches(topic, Join(Split(filter)[i := [PLUS]]))
  {
    hide ValidFilter, Split, Join;
    var fs := Split(filter);
    forall j | 0 <= j < |fs|
      ensures SLASH !in fs[j]
    {
      LevelsOfValid(filter, j);
    }
    var plus := fs[i := [PLUS]];
    SplitJoin(plus);
    forall j | 0 <= j < Fixed(fs)
      ensures plus[j] != [HASH]
    {
      if j != i {
        assert fs[j] == fs[..Fixed(fs)][j];
      }
    }
    FixedIs(plus, Fixed(fs));
  }

  /** Wildcards only widen: a level replaced by '+', or a tail replaced by '#', keeps every match. */
  lemma WideningKeepsMatches(topic: Str, filter: Str, i: nat)
    requires ValidFilter(filter) && i < |Split(filter)| && Matches(topic, filter)
    ensures Matches(topic, Join(Split(filter)[..i] + [[HASH]]))
    ensures Split(filter)[i] != [HASH] ==> Matches(topic, Join(Split(filter)[i := [PLUS]]))
  {
    hide ValidFilter, Split, Join, Matches;
    HashWidens(topic, filter, i);
    if Split(filter)[i] != [HASH] {
      PlusWidens(topic, filter, i);
    }
  }

  // ---- Legal filters in characters ----

  /** A '#' stands alone at the very end, behind a slash or nothing; a '+' alone between slashes or ends. */
  predicate PlacedAt(f: Str, i: nat)
    requires i < |f|
  {
    && (f[i] == '#' as int ==> i == |f| - 1 && (i == 0 || f[i - 1] == '/' as int))
    && (f[i] == '+' as int ==> (i == 0 || f[i - 1] == '/' as int) && (i == |f| - 1 || f[i + 1] == '/' as int))
  }

  predicate WellPlaced(f: Str) {
    forall i :: 0 <= i < |f| ==> PlacedAt(f, i)
  }

  lemma WellPlacedLevel(h: Str)
    requires '/' as int !in h
    ensures WellPlaced(h) <==> LegalLevel([h], 0)
  {
    forall i | 0 <= i < |h| && (h[i] == HASH || h[i] == PLUS)
      ensures PlacedAt(h, i) <==> |h| == 1
    {
      assert i > 0 ==> h[i - 1] in h;
      assert i < |h| - 1 ==> h[i + 1] in h;
    }
    if HASH in h {
      var i :| 0 <= i < |h| && h[i] == HASH;
      assert PlacedAt(h, i) <==> h == [HASH];
    }
    if PLUS in h {
      var i :| 0 <= i < |h| && h[i] == PLUS;
      assert PlacedAt(h, i) <==> h == [PLUS];
    }
  }

  /** A level in front of a slash holds no '#', and a '+' only alone. */
  predicate FrontLevel(h: Str) {
    '#' as int !in h && ('+' as int in h ==> h == ['+' as int])
  }

  /** Being well placed in a text, for what is in front of its first slash and for what is behind. */
  lemma PlacedParts(h: Str, t: Str, s: Str)
    requires '/' as int !in h && s == h + ['/' as int] + t
    ensures forall i :: 0 <= i < |t| ==> (PlacedAt(s, |h| + 1 + i) <==> PlacedAt(t, i))
    ensures PlacedAt(s, |h|)
    ensures forall i :: 0 <= i < |h| && h[i] == '#' as int ==> !PlacedAt(s, i)
    ensures forall i :: 0 <= i < |h| && h[i] == '+' as int ==> (PlacedAt(s, i) <==> |h| == 1)
    ensures forall i :: 0 <= i < |h| && h[i] != '#' as int && h[i] != '+' as int ==> PlacedAt(s, i)
  {
    var n := |h| + 1;
    assert s[|h|] == '/' as int;
    assert forall i :: 0 <= i < |h| ==> s[i] == h[i] && h[i] in h;
    forall i | 0 <= i < |t|
      ensures PlacedAt(s, n + i) <==> PlacedAt(t, i)
    {
      assert s[n + i] == t[i];
      assert if i > 0 then s[n + i - 1] == t[i - 1] else s[n + i - 1] == '/' as int;
      assert i < |t| - 1 ==> s[n + i + 1] == t[i + 1];
    }
    forall i | 0 <= i < |h| && h[i] == '+' as int
      ensures PlacedAt(s, i) <==> |h| == 1
    {
      assert i > 0 ==> s[i - 1] == h[i - 1] && h[i - 1] in h;
      assert i < |h| - 1 ==> s[i + 1] == h[i + 1] && h[i + 1] in h;
      assert i == |h| - 1 ==> s[i + 1] == '/' as int;
    }
  }

  lemma PlacedBehind(h: Str, t: Str, s: Str)
    requires '/' as int !in h && s == h + ['/' as int] + t
    ensures WellPlaced(s) <==> FrontLevel(h) && WellPlaced(t)
  {
    hide PlacedAt;
    PlacedParts(h, t, s);
    if WellPlaced(s) {
      forall i | 0 <= i < |t|
        ensures PlacedAt(t, i)
      {
        assert PlacedAt(s, |h| + 1 + i);
      }
      assert forall i :: 0 <= i < |h| ==> PlacedAt(s, i);
    } else {
      var i: nat :| i < |s| && !PlacedAt(s, i);
      assert i != |h|;
      if i > |h| {
        var j := i - |h| - 1;
        assert PlacedAt(s, |h| + 1 + j) <==> PlacedAt(t, j);
      } else {
        assert h[i] in h;
      }
    }
  }

  lemma LegalFront(h: Str, ts: seq<Str>)
    requires ts != []
    ensures LegalLevel([h] + ts, 0) <==> FrontLevel(h)
    ensures forall i :: 0 <= i < |ts| ==> (LegalLevel([h] + ts, i + 1) <==> LegalLevel(ts, i))
  {
  }

  ghost predicate AllLegal(levels: seq<Str>) {
    forall i :: 0 <= i < |levels| ==> LegalLevel(levels, i)
  }

  lemma {:induction false} PlacedIsLegal(s: Str)
    ensures WellPlaced(s) <==> AllLegal(Split(s))
    decreases |s|
  {
    SplitText(s);
    if '/' as int in s {
      hide Split, WellPlaced, LegalLevel, FrontLevel;
      var h, t := Head(s), Tail(s);
      PlacedIsLegal(t);
      LegalFront(h, Split(t));
      PlacedBehind(h, t, s);
      var levels := [h] + Split(t);
      if AllLegal(levels) {
        forall i | 0 <= i < |Split(t)|
          ensures LegalLevel(Split(t), i)
        {
          assert LegalLevel(levels, i + 1);
        }
        assert LegalLevel(levels, 0);
      } else if FrontLevel(h) {
        var i :| 0 <= i < |levels| && !LegalLevel(levels, i);
        assert i > 0 && !LegalLevel(Split(t), i - 1);
      }
    } else {
      hide WellPlaced;
      WellPlacedLevel(s);
    }
  }

  /** A filter is legal exactly when it is not empty and its wildcards are well placed. */
  lemma ValidExactly(filter: Str)
    ensures ValidFilter(filter) <==> filter != [] && WellPlaced(filter)
  {
    hide Split, WellPlaced;
    PlacedIsLegal(filter);
  }

  /** A wildcard filter is one that holds a '+' or a '#'; for legal filters: one that matches any topic but itself. */
  lemma WildcardExactly(filter: Str)
    ensures IsWildcard(filter) <==> '+' as int in filter || '#' as int in filter
    ensures ValidFilter(filter) ==> (IsWildcard(filter) <==> exists t :: t != filter && Matches(t, filter))
  {
    if ValidFilter(filter) && IsWildcard(filter) {
      var t := AnotherTopic(filter);
    }
    if !IsWildcard(filter) {
      forall t
        ensures Matches(t, filter) <==> t == filter
      {
        PlainFilterMatches(t, filter);
      }
    }
  }

  lemma {:induction false} WildcardLevel(s: Str, b: byte) returns (i: nat)
    requires b in s && b != SLASH
    ensures i < |Split(s)| && b in Split(s)[i]
    decreases |s|
  {
    SplitText(s);
    if '/' as int !in s {
      i := 0;
    } else if b in Head(s) {
      i := 0;
    } else {
      assert b in Tail(s) by {
        assert s == Head(s) + ['/' as int] + Tail(s);
      }
      var j := WildcardLevel(Tail(s), b);
      i := j + 1;
    }
  }

  /** The empty level in place of a wildcard gives another topic that matches. */
  lemma AnotherTopic(filter: Str) returns (t: Str)
    requires ValidFilter(filter) && IsWildcard(filter)
    ensures t != filter && Matches(t, filter)
  {
    var fs := Split(filter);
    var i := WildcardLevel(filter, if PLUS in filter then PLUS else HASH);
    assert LegalLevel(fs, i);
    var ts := fs[i := []];
    forall j | 0 <= j < |ts|
      ensures SLASH !in ts[j]
    {
      if j != i && SLASH in fs[j] {
        SplitLevels(filter, j, SLASH);
      }
    }
    SplitJoin(ts);
    t := Join(ts);
    assert ts[i] != fs[i];
    forall j | 0 <= j < Fixed(fs)
      ensures fs[j] == [PLUS] || fs[j] == ts[j]
    {
      assert fs[j] == fs[..Fixed(fs)][j];
    }
  }

  /** '#' alone matches every topic; '+' alone exactly the topics of one level. */
  lemma LoneWildcards(t: Str)
    ensures Matches(t, ['#' as int])
    ensures Matches(t, ['+' as int]) <==> '/' as int !in t
  {
    AgreesIsMatches(t, ['#' as int]);
    AgreesIsMatches(t, ['+' as int]);
    SplitText(['#' as int]);
    SplitText(['+' as int]);
  }
}
