/** Topic filters. Topics are bytes; the separator and the wildcards are single bytes in UTF-8. */
module Topics {
  import opened Base

  const SLASH: byte := 0x2F
  const HASH: byte := 0x23
  const PLUS: byte := 0x2B

  /** `str::split('/')`: at least one level, possibly empty ones. */
  function Split(s: Bytes): (levels: seq<Bytes>)
    ensures |levels| > 0
  {
    if s == [] then [[]]
    else if s[0] == SLASH then [[]] + Split(s[1..])
    else [[s[0]] + Split(s[1..])[0]] + Split(s[1..])[1..]
  }

  function Join(levels: seq<Bytes>): Bytes
    requires |levels| > 0
  {
    if |levels| == 1 then levels[0] else levels[0] + [SLASH] + Join(levels[1..])
  }

  lemma {:induction false} JoinGrown(b: byte, levels: seq<Bytes>)
    requires |levels| > 0
    ensures Join([[b] + levels[0]] + levels[1..]) == [b] + Join(levels)
  {
    var grown := [[b] + levels[0]] + levels[1..];
    assert grown[1..] == levels[1..];
    if |levels| > 1 { assert ([b] + levels[0]) + [SLASH] == [b] + (levels[0] + [SLASH]); }
  }

  lemma {:induction false} JoinSplit(s: Bytes)
    ensures Join(Split(s)) == s
  {
    if s != [] {
      var rest := Split(s[1..]);
      JoinSplit(s[1..]);
      if s[0] == SLASH {
        assert ([[]] + rest)[1..] == rest;
        assert s == [] + [SLASH] + s[1..];
      } else {
        JoinGrown(s[0], rest);
        assert s == [s[0]] + s[1..];
      }
    }
  }

  /** Splitting loses nothing. */
  lemma SplitIsInjective(s: Bytes, t: Bytes)
    ensures Split(s) == Split(t) <==> s == t
  {
    JoinSplit(s);
    JoinSplit(t);
  }

  // ---- filters ----

  datatype FilterError = Overflow | BadTopicFilter

  datatype TopicFilter = TopicFilter(filter: Bytes, wild: bool)

  /** `TopicFilter::new`, with `find` as a loop. */
  method NewFilter(filter: Bytes, maxLen: nat) returns (r: Result<TopicFilter, FilterError>)
    ensures r == if |filter| > maxLen then Err(Overflow)
                 else if filter == [] || HASH in filter[..|filter| - 1] then Err(BadTopicFilter)
                 else Ok(TopicFilter(filter, HASH in filter || PLUS in filter))
  {
    if |filter| > maxLen { return Err(Overflow); }
    if |filter| == 0 { return Err(BadTopicFilter); }
    var i := 0;
    while i < |filter| && filter[i] != HASH
      invariant i <= |filter| && HASH !in filter[..i]
    {
      i := i + 1;
    }
    if i < |filter| - 1 {
      assert filter[..|filter| - 1][i] == HASH;
      return Err(BadTopicFilter);
    }
    assert i == |filter| ==> filter == filter[..i];
    assert i < |filter| ==> filter[..i] == filter[..|filter| - 1];
    assert filter[..|filter| - 1] <= filter[..i];
    r := Ok(TopicFilter(filter, i < |filter| || PLUS in filter));
  }

  /** What `new` has accepted. */
  predicate Accepted(f: TopicFilter) {
    f.filter != [] && HASH !in f.filter[..|f.filter| - 1] && (f.wild <==> HASH in f.filter || PLUS in f.filter)
  }

  predicate LevelMatches(level: Bytes, field: Bytes) {
    level == [PLUS] || level == field
  }

  /**
   Matching, level by level: a final `#` stands for one or more levels, `+` for exactly one, and
   every other level for itself.
   */
  predicate Matches(filter: seq<Bytes>, topic: seq<Bytes>)
    requires |filter| > 0
  {
    var n := |filter|;
    if filter[n - 1] == [HASH] then |topic| >= n && forall i :: 0 <= i < n - 1 ==> LevelMatches(filter[i], topic[i])
    else |topic| == n && forall i :: 0 <= i < n ==> LevelMatches(filter[i], topic[i])
  }

  lemma {:induction false} HashIsInLastLevel(s: Bytes, i: nat)
    requires s == [] || HASH !in s[..|s| - 1]
    requires i < |Split(s)| - 1
    ensures HASH !in Split(s)[i]
  {
    var t := s[1..];
    if |s| > 1 {
      assert s[..|s| - 1] == [s[0]] + t[..|t| - 1];
      if s[0] != SLASH {
        HashIsInLastLevel(t, i);
        assert Split(s)[i] == (if i == 0 then [s[0]] else []) + Split(t)[i];
      } else if i > 0 {
        HashIsInLastLevel(t, i - 1);
      }
    }
  }

  lemma {:induction false} SplitKeepsBytes(s: Bytes, i: nat, b: byte)
    requires i < |Split(s)| && b in Split(s)[i]
    ensures b in s
  {
    if s != [] {
      if s[0] == SLASH {
        if i > 0 { SplitKeepsBytes(s[1..], i - 1, b); }
      } else if i > 0 {
        SplitKeepsBytes(s[1..], i, b);
      } else if b != s[0] {
        SplitKeepsBytes(s[1..], 0, b);
      }
    }
  }

  /** The string comparison taken for filters without wildcards gives the same answer. */
  lemma PlainFilterIsEquality(filter: Bytes, topic: Bytes)
    requires HASH !in filter && PLUS !in filter
    ensures Matches(Split(filter), Split(topic)) <==> filter == topic
  {
    var fs, ts := Split(filter), Split(topic);
    forall i | 0 <= i < |fs| ensures fs[i] != [HASH] && fs[i] != [PLUS] {
      if HASH in fs[i] { SplitKeepsBytes(filter, i, HASH); }
      if PLUS in fs[i] { SplitKeepsBytes(filter, i, PLUS); }
    }
    assert Matches(fs, ts) <==> fs == ts;
    SplitIsInjective(filter, topic);
  }

  /** `TopicFilter::is_match`: both paths compute the level-by-level definition. */
  method IsMatch(f: TopicFilter, topic: Bytes) returns (b: bool)
    requires Accepted(f)
    ensures b == Matches(Split(f.filter), Split(topic))
  {
    if !f.wild {
      PlainFilterIsEquality(f.filter, topic);
      return f.filter == topic;
    }
    var fs, ts := Split(f.filter), Split(topic);
    for i := 0 to Max(|fs|, |ts|)
      invariant i <= |fs| && i <= |ts|
      invariant forall j :: 0 <= j < i ==> fs[j] != [HASH] && LevelMatches(fs[j], ts[j])
    {
      if i >= |fs| || i >= |ts| { return false; }
      if i < |fs| - 1 { HashIsInLastLevel(f.filter, i); }
      if fs[i] == [HASH] { return true; }
      if fs[i] != [PLUS] && fs[i] != ts[i] { return false; }
    }
    b := true;
  }

  // ---- against the standard ----

  /** Section 4.7.1 of MQTT 5.0, where `#` also stands for the parent level. */
  predicate StandardMatches(filter: seq<Bytes>, topic: seq<Bytes>)
    requires |filter| > 0
  {
    var n := |filter|;
    if filter[n - 1] == [HASH] then |topic| >= n - 1 && forall i :: 0 <= i < n - 1 ==> LevelMatches(filter[i], topic[i])
    else Matches(filter, topic)
  }

  /** The code differs from the standard exactly on the parent level of a `#` filter. */
  lemma DiffersFromStandardIff(filter: seq<Bytes>, topic: seq<Bytes>)
    requires |filter| > 0
    ensures Matches(filter, topic) <==>
              StandardMatches(filter, topic) && !(filter[|filter| - 1] == [HASH] && |topic| == |filter| - 1)
  {
  }

  lemma SplitLetter(b: byte, s: Bytes)
    ensures Split([b] + s) == if b == SLASH then [[]] + Split(s) else [[b] + Split(s)[0]] + Split(s)[1..]
  {
    assert ([b] + s)[1..] == s;
  }

  /** The filter `a/#` and the topic `a`. */
  lemma ParentLevelIsMissed()
    ensures var f, t := [0x61] + ([SLASH] + ([HASH] + [])), [0x61] + [];
            !Matches(Split(f), Split(t)) && StandardMatches(Split(f), Split(t))
  {
    assert Split([]) == [[]] && [HASH] + [] == [HASH];
    SplitLetter(HASH, []);
    SplitLetter(SLASH, [HASH] + []);
    SplitLetter(0x61, [SLASH] + ([HASH] + []));
    SplitLetter(0x61, []);
    assert Split([HASH] + [])[0] == [HASH];
  }
}
