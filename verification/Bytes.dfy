/** Regrouping facts about sequences, each stated for arbitrary pieces. */
module Bytes {

  lemma Regroup<T>(a: seq<T>, b: seq<T>, c: seq<T>)
    ensures a + (b + c) == (a + b) + c
  {
  }

  /** Splitting a prefix test at a header. */
  lemma PrefixSplit<T>(header: seq<T>, body: seq<T>, s: seq<T>)
    ensures header + body <= s <==> header <= s && body <= s[|header|..]
  {
    if header + body <= s {
      assert s[..|header|] == (header + body)[..|header|] == header;
      assert s[|header|..][..|body|] == s[..|header + body|][|header|..] == body;
    }
    if header <= s && body <= s[|header|..] {
      assert s[..|header + body|] == s[..|header|] + s[|header|..][..|body|];
    }
  }

  lemma Prefix2<T>(a: T, b: T, body: seq<T>, s: seq<T>)
    ensures [a, b] + body <= s <==> |s| >= 2 && s[0] == a && s[1] == b && body <= s[2..]
  {
    PrefixSplit([a, b], body, s);
    if |s| >= 2 {
      assert s[..2] == [s[0], s[1]];
    }
  }

  /** Removing a shared front and one marker. */
  lemma PrefixAfter<T>(front: seq<T>, mark: T, body: seq<T>, s: seq<T>)
    ensures front + ([mark] + body) <= s
            <==> |front| < |s| && s == front + [mark] + s[|front| + 1..] && body <= s[|front| + 1..]
  {
    Regroup(front, [mark], body);
    PrefixSplit(front + [mark], body, s);
    if front + [mark] <= s {
      assert s[..|front| + 1] == front + [mark];
    }
    if |front| < |s| && s == front + [mark] + s[|front| + 1..] {
      assert s[..|front| + 1] == front + [mark];
    }
  }

  /** A marker right behind `body` in `s == body + rest`. */
  lemma MarkBehind<T>(body: seq<T>, rest: seq<T>, mark: T, s: seq<T>)
    requires s == body + rest
    ensures body + [mark] <= s <==> rest != [] && rest[0] == mark
  {
    PrefixSplit(body, [mark], s);
    assert s[|body|..] == rest;
    if rest != [] {
      assert rest[..1] == [rest[0]];
    }
  }

  lemma PrefixRest<T>(body: seq<T>, s: seq<T>)
    requires body <= s
    ensures s == body + s[|body|..]
  {
  }

  lemma Snoc<T>(s: seq<T>, x: T)
    ensures (s + [x])[..|s|] == s && (s + [x])[|s|] == x
  {
  }
}
