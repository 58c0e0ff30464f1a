/**
 * How a question about both an account and a card falls into two segments: at the last
 * joint between the first word of the one side and the first word of the other.
 */
module GroundingSplit {
  import opened Common
  import opened Text
  import opened GroundingText
  import opened GroundingSentences

  const JOINTS: set<string> := {"e", "com", "mais"}

  // A separator is a comma, a semicolon, a plus sign, or one of the words "e", "com" and
  // "mais" between two spaces.
  lemma SeparatorExactly(t: string, i: nat)
    ensures SeparatorAt(t, i) ==
              if OccursAt(t, " e ", i) then 3
              else if OccursAt(t, " com ", i) then 5
              else if OccursAt(t, " mais ", i) then 6
              else if OccursAt(t, ",", i) || OccursAt(t, ";", i) || OccursAt(t, "+", i) then 1 else 0
  {
    if i + 3 <= |t| { assert t[i..i + 3] == [t[i], t[i + 1], t[i + 2]]; }
    if i + 5 <= |t| { assert t[i..i + 5] == [t[i], t[i + 1], t[i + 2], t[i + 3], t[i + 4]]; }
    if i + 6 <= |t| { assert t[i..i + 6] == [t[i], t[i + 1], t[i + 2], t[i + 3], t[i + 4], t[i + 5]]; }
    if i < |t| { assert t[i..i + 1] == [t[i]]; }
    if OccursAt(t, " e ", i) { FirstLetters(t, " e ", i); }
    if OccursAt(t, " com ", i) { FirstLetters(t, " com ", i); }
    if OccursAt(t, " mais ", i) { FirstLetters(t, " mais ", i); }
  }

  lemma FirstLetters(t: string, s: string, i: nat)
    requires OccursAt(t, s, i) && |s| >= 2
    ensures t[i] == s[0] && t[i + 1] == s[1]
  {
    LetterAt(t, s, i, 0);
    LetterAt(t, s, i, 1);
  }

  // ----- words on the two sides of a space

  lemma PrefixWord(t: string, n: nat, w: string, i: nat)
    requires n < |t| && t[n] == ' ' && IsPlainWord(w) && i <= n
    ensures WordAt(t, w, i) <==> i + |w| <= n && WordAt(t[..n], w, i)
  {
    if i + |w| <= n {
      SubSlice(t, 0, n, i, i + |w|);
      assert t[0..n] == t[..n];
    } else if OccursAt(t, w, i) {
      LetterAt(t, w, i, n - i);
    }
  }

  lemma SuffixWord(t: string, n: nat, w: string, k: nat)
    requires n < |t| && t[n] == ' '
    ensures WordAt(t, w, n + 1 + k) <==> WordAt(t[n + 1..], w, k)
  {
    if n + 1 + k + |w| <= |t| {
      SubSlice(t, n + 1, |t|, k, k + |w|);
      assert t[n + 1..|t|] == t[n + 1..];
    }
  }

  lemma AnyPrefix(t: string, n: nat, class_: set<string>, i: nat)
    requires n < |t| && t[n] == ' ' && PlainWords(class_) && i <= n
    ensures AnyWordAt(t, class_, i) <==> AnyWordAt(t[..n], class_, i)
  {
    if w :| w in class_ && WordAt(t, w, i) { PrefixWord(t, n, w, i); }
    if w :| w in class_ && WordAt(t[..n], w, i) { PrefixWord(t, n, w, i); }
  }

  lemma AnySuffix(t: string, n: nat, class_: set<string>, k: nat)
    requires n < |t| && t[n] == ' '
    ensures AnyWordAt(t, class_, n + 1 + k) <==> AnyWordAt(t[n + 1..], class_, k)
  {
    if w :| w in class_ && WordAt(t, w, n + 1 + k) { SuffixWord(t, n, w, k); }
    if w :| w in class_ && WordAt(t[n + 1..], w, k) { SuffixWord(t, n, w, k); }
  }

  /** The first word of a class that the first part of a text says is found in that part. */
  lemma FirstIn(t: string, n: nat, class_: set<string>)
    requires n < |t| && t[n] == ' ' && PlainWords(class_) && HasWord(t[..n], class_)
    ensures 0 <= FirstWord(t, class_, 0) < n
  {
    var i: nat :| i <= n && AnyWordAt(t[..n], class_, i);
    var w :| w in class_ && WordAt(t[..n], w, i);
    AnyPrefix(t, n, class_, i);
  }

  /** A class that the first part does not say is first found where the second part says it. */
  lemma FirstBehind(t: string, n: nat, class_: set<string>, k: nat)
    requires n < |t| && t[n] == ' ' && PlainWords(class_) && !HasWord(t[..n], class_) && FirstWord(t[n + 1..], class_, 0) == k
    ensures FirstWord(t, class_, 0) == n + 1 + k
  {
    AnySuffix(t, n, class_, k);
    forall j: nat | j < n + 1 + k ensures !AnyWordAt(t, class_, j) {
      if j <= n { AnyPrefix(t, n, class_, j); } else { AnySuffix(t, n, class_, j - n - 1); }
    }
  }

  // ----- separators of a plain text

  predicate PlainText(t: string) { forall i :: 0 <= i < |t| ==> t[i] == ' ' || IsTokenChar(t[i]) }

  lemma JointsArePlain()
    ensures PlainWords(JOINTS)
  {}

  predicate JointAt(t: string, i: nat, g: string) {
    g in JOINTS && i < |t| && t[i] == ' ' && WordAt(t, g, i + 1) && i + 1 + |g| < |t| && t[i + 1 + |g|] == ' '
  }

  lemma JointText(t: string, i: nat, g: string)
    requires i < |t| && t[i] == ' ' && OccursAt(t, g, i + 1) && i + 1 + |g| < |t| && t[i + 1 + |g|] == ' '
    ensures OccursAt(t, " " + (g + " "), i)
  {
    var s := " " + (g + " ");
    forall k | 0 <= k < |s| ensures t[i..i + |s|][k] == s[k] {
      if 0 < k <= |g| { LetterAt(t, g, i + 1, k - 1); }
    }
  }

  lemma JointSeparates(t: string, i: nat, g: string)
    requires JointAt(t, i, g)
    ensures SeparatorAt(t, i) == |g| + 2
  {
    JointText(t, i, g);
    SeparatorExactly(t, i);
    assert " " + ("e" + " ") == " e " && " " + ("com" + " ") == " com " && " " + ("mais" + " ") == " mais ";
    if OccursAt(t, " e ", i) { FirstLetters(t, " e ", i); }
    if OccursAt(t, " com ", i) { FirstLetters(t, " com ", i); }
    if OccursAt(t, " mais ", i) { FirstLetters(t, " mais ", i); }
  }

  lemma TextJoint(t: string, i: nat, g: string)
    requires OccursAt(t, " " + (g + " "), i) && g in JOINTS
    ensures JointAt(t, i, g)
  {
    var s := " " + (g + " ");
    LetterAt(t, s, i, 0);
    LetterAt(t, s, i, |g| + 1);
    SubSlice(t, i, i + |s|, 1, 1 + |g|);
    assert s[1..1 + |g|] == g;
  }

  lemma SeparatesAtJoint(t: string, i: nat) returns (g: string)
    requires PlainText(t) && SeparatorAt(t, i) > 0
    ensures JointAt(t, i, g) && SeparatorAt(t, i) == |g| + 2
  {
    SeparatorExactly(t, i);
    assert i < |t| ==> t[i..i + 1] == [t[i]];
    assert " " + ("e" + " ") == " e " && " " + ("com" + " ") == " com " && " " + ("mais" + " ") == " mais ";
    if OccursAt(t, " e ", i) {
      g := "e";
      TextJoint(t, i, g);
    } else if OccursAt(t, " com ", i) {
      g := "com";
      TextJoint(t, i, g);
    } else if OccursAt(t, " mais ", i) {
      g := "mais";
      TextJoint(t, i, g);
    }
  }

  // ----- the joint between the two sides

  /** A joint at a position, before it no joint that ends there, and behind it none up to a position. */
  ghost predicate LoneJoint(t: string, at: nat, g: string, end: nat) {
    && PlainText(t) && JointAt(t, at, g) && at + |g| + 2 <= end <= |t|
    && (forall i: nat, h :: h in JOINTS && i + |h| == at ==> !WordAt(t, h, i))
    && (forall i: nat, h :: h in JOINTS && at + |g| + 2 <= i && i + |h| < end ==> !WordAt(t, h, i))
  }

  lemma NotBefore(t: string, at: nat, g: string, end: nat, k: nat)
    requires LoneJoint(t, at, g, end) && SeparatorAt(t, k) > 0 && k < at
    ensures k + SeparatorAt(t, k) <= at
  {
    JointsArePlain();
    var h := SeparatesAtJoint(t, k);
    if k + |h| + 2 > at {
      if at < k + 1 + |h| { LetterAt(t, h, k + 1, at - k - 1); }
    }
  }

  lemma NotBehind(t: string, at: nat, g: string, end: nat, k: nat)
    requires LoneJoint(t, at, g, end) && SeparatorAt(t, k) > 0 && k + SeparatorAt(t, k) <= end
    ensures k <= at
  {
    JointsArePlain();
    var h := SeparatesAtJoint(t, k);
    if at < k < at + 1 + |g| { LetterAt(t, g, at + 1, k - at - 1); }
  }

  lemma CutIs(t: string, first: nat, end: nat, sep: Separator, at: nat, start: nat)
    requires first <= end <= |t| && LastSeparator(t[first..end], 0, None) == Some(sep)
    requires at == first + sep.index && start == at + sep.length
    ensures CutBetween(t, first, end) == Some((at, start))
  {}

  lemma JointThere(t: string, first: nat, at: nat, g: string, end: nat)
    requires LoneJoint(t, at, g, end) && first < at
    ensures SeparatorAt(t[first..end], at - first) == |g| + 2
  {
    JointSeparates(t, at, g);
    SeparatorKept(t, first, end, at - first);
  }

  lemma OnlyJoint(t: string, at: nat, g: string, end: nat, k: nat, n: nat)
    requires LoneJoint(t, at, g, end) && SeparatorAt(t, k) == n > 0 && at < k + n <= end
    ensures k == at && n == |g| + 2
  {
    if k < at { NotBefore(t, at, g, end, k); }
    NotBehind(t, at, g, end, k);
    JointSeparates(t, at, g);
  }

  lemma OnlyThere(t: string, first: nat, at: nat, g: string, end: nat, i: nat, n: nat)
    requires LoneJoint(t, at, g, end) && first < at && SeparatorAt(t[first..end], i) == n > 0 && first + i + n > at
    ensures first + i == at && n == |g| + 2
  {
    SeparatorInside(t, first, end, i);
    OnlyJoint(t, at, g, end, first + i, n);
  }

  lemma LastOf(s: string, x: nat) returns (sep: Separator)
    requires x < |s| && SeparatorAt(s, x) > 0
    ensures LastSeparator(s, 0, None) == Some(sep) && SeparatorAt(s, sep.index) == sep.length > 0 && x < sep.index + sep.length
  {
    LastSeparatorIsLast(s, 0, None, x);
    LastSeparatorFound(s, 0, None);
    sep := LastSeparator(s, 0, None).value;
  }

  /** A search between two positions reports that joint. */
  lemma LastIsJoint(t: string, first: nat, at: nat, g: string, end: nat) returns (sep: Separator)
    requires LoneJoint(t, at, g, end) && first < at
    ensures LastSeparator(t[first..end], 0, None) == Some(sep) && first + sep.index == at && sep.length == |g| + 2
  {
    JointThere(t, first, at, g, end);
    sep := LastOf(t[first..end], at - first);
    OnlyThere(t, first, at, g, end, sep.index, sep.length);
  }

  lemma SeparatorKept(t: string, first: nat, end: nat, x: nat)
    requires first + x < end <= |t| && SeparatorAt(t, first + x) > 0 && first + x + SeparatorAt(t, first + x) <= end
    ensures SeparatorAt(t[first..end], x) == SeparatorAt(t, first + x)
  {
    assert forall k :: 0 <= k < end - first ==> t[first..end][k] == t[first + k];
  }

  // ----- sentences

  lemma {:induction false} Join(a: seq<string>, b: seq<string>)
    requires a != [] && b != []
    ensures Sentence(a + b) == Sentence(a) + (" " + Sentence(b))
  {
    var w := a + b;
    assert w[0] == a[0] && w[1..] == a[1..] + b;
    if |a| == 1 {
      assert a[1..] + b == b;
    } else {
      Join(a[1..], b);
      assert a[0] + (" " + (Sentence(a[1..]) + (" " + Sentence(b)))) == (a[0] + (" " + Sentence(a[1..]))) + (" " + Sentence(b));
    }
  }

  lemma {:induction false} SentenceIsPlain(words: seq<string>)
    requires AllPlain(words)
    ensures PlainText(Sentence(words))
  {
    if |words| > 1 { SentenceIsPlain(words[1..]); }
  }

  lemma EndsWord(last: string, w: string, i: nat)
    requires IsPlainWord(last) && IsPlainWord(w) && i + |w| == |last| && WordAt(last, w, i)
    ensures w == last
  {
    assert forall j :: 0 <= j < |last| ==> IsTokenChar(last[j]) && IsWordChar(last[j]);
    assert last[0..|last|] == last;
  }

  lemma LastPart(t: string, m: nat, last: string, w: string, i: nat)
    requires m < |t| && t[m] == ' ' && t[m + 1..] == last && IsPlainWord(w) && i + |w| == |t| && WordAt(t, w, i)
    ensures i > m && i - m - 1 + |w| == |last| && WordAt(last, w, i - m - 1)
  {
    if i <= m { LetterAt(t, w, i, m - i); } else { SuffixWord(t, m, w, i - m - 1); }
  }

  lemma LastOfSentence(words: seq<string>, last: string) returns (m: nat)
    requires |words| > 1 && last == words[|words| - 1]
    ensures var t := Sentence(words); m < |t| && t[m] == ' ' && t[m + 1..] == last
  {
    var n := |words| - 1;
    assert words == words[..n] + [last];
    Join(words[..n], [last]);
    m := |Sentence(words[..n])|;
  }

  /** A word that ends a sentence is its last. */
  lemma LastWord(words: seq<string>, w: string, i: nat)
    requires AllPlain(words) && words != [] && IsPlainWord(w) && i + |w| == |Sentence(words)| && WordAt(Sentence(words), w, i)
    ensures w == words[|words| - 1]
  {
    var last := words[|words| - 1];
    if |words| == 1 {
      EndsWord(last, w, i);
    } else {
      var m := LastOfSentence(words, last);
      LastPart(Sentence(words), m, last, w, i);
      EndsWord(last, w, i - m - 1);
    }
  }

  // ----- a question about both

  /** A text of two parts around a joint. */
  ghost predicate Around(t: string, a: string, g: string, b: string) { t == a + (" " + (g + (" " + b))) }

  lemma PartsAround(t: string, a: string, g: string, b: string)
    requires Around(t, a, g, b)
    ensures |t| == |a| + 2 + |g| + |b| && t[|a|] == ' ' && t[..|a|] == a
    ensures var u := t[|a| + 1..]; |u| == |g| + 1 + |b| && u[|g|] == ' ' && u[..|g|] == g && u[|g| + 1..] == b
    ensures t[|a| + |g| + 2..] == b && t[|a| + 1 + |g|] == ' '
  {
    var u := t[|a| + 1..];
    assert u == g + (" " + b);
  }

  /** A class that neither the first part nor the joint says is first found where the second part says it. */
  lemma FirstInSecond(t: string, a: string, g: string, b: string, class_: set<string>, k: nat)
    requires Around(t, a, g, b) && PlainWords(class_) && !HasWord(a, class_) && !HasWord(g, class_) && FirstWord(b, class_, 0) == k
    ensures FirstWord(t, class_, 0) == |a| + |g| + 2 + k
  {
    PartsAround(t, a, g, b);
    FirstBehind(t[|a| + 1..], |g|, class_, k);
    FirstBehind(t, |a|, class_, |g| + 1 + k);
  }

  lemma InSecond(t: string, a: string, g: string, b: string, h: string, i: nat)
    requires Around(t, a, g, b) && i >= |a| + |g| + 2
    ensures WordAt(t, h, i) <==> WordAt(b, h, i - |a| - |g| - 2)
  {
    PartsAround(t, a, g, b);
    SuffixWord(t, |a|, h, i - |a| - 1);
    SuffixWord(t[|a| + 1..], |g|, h, i - |a| - |g| - 2);
  }

  lemma JointStands(t: string, a: string, g: string, b: string)
    requires Around(t, a, g, b) && g in JOINTS
    ensures JointAt(t, |a|, g)
  {
    PartsAround(t, a, g, b);
    JointsArePlain();
    assert t[|a| + 1..][..|g|] == t[|a| + 1..|a| + 1 + |g|];
  }

  /** What stands before the first word of a class in a sentence. */
  ghost predicate Before(b: string, front: string, k: nat) {
    (k == 0 && front == "") || (k == |front| + 1 && k <= |b| && b[..|front|] == front && b[|front|] == ' ')
  }

  lemma SaidHere(t: string, class_: set<string>, w: string, i: nat)
    requires w in class_ && i <= |t| && WordAt(t, w, i)
    ensures HasWord(t, class_)
  {
    assert AnyWordAt(t, class_, i);
  }

  /** A word that ends before the first word of a class stands in what is before that word. */
  lemma InFront(b: string, front: string, k: nat, h: string, i: nat)
    requires k <= |b| && Before(b, front, k) && IsPlainWord(h) && i + |h| < k && WordAt(b, h, i)
    ensures i <= |front| && WordAt(front, h, i)
  {
    PrefixWord(b, |front|, h, i);
  }

  lemma NoneBehind(t: string, a: string, g: string, b: string, front: string, k: nat, h: string, i: nat)
    requires Around(t, a, g, b) && k <= |b| && Before(b, front, k) && !HasWord(front, JOINTS) && h in JOINTS && IsPlainWord(h)
    requires |a| + |g| + 2 <= i && i + |h| < |a| + |g| + 2 + k
    ensures !WordAt(t, h, i)
  {
    InSecond(t, a, g, b, h, i);
    if WordAt(t, h, i) {
      InFront(b, front, k, h, i - |a| - |g| - 2);
      SaidHere(front, JOINTS, h, i - |a| - |g| - 2);
    }
  }

  lemma IsLoneJoint(t: string, a: string, g: string, b: string, front: string, k: nat)
    requires Around(t, a, g, b) && g in JOINTS && PlainText(t) && k <= |b| && Before(b, front, k)
    requires forall i: nat, h :: h in JOINTS && i + |h| == |a| ==> !WordAt(a, h, i)
    requires !HasWord(front, JOINTS)
    ensures LoneJoint(t, |a|, g, |a| + |g| + 2 + k)
  {
    JointStands(t, a, g, b);
    PartsAround(t, a, g, b);
    JointsArePlain();
    forall i: nat, h | h in JOINTS && |a| + |g| + 2 <= i && i + |h| < |a| + |g| + 2 + k ensures !WordAt(t, h, i) {
      NoneBehind(t, a, g, b, front, k, h, i);
    }
    forall i: nat, h | h in JOINTS && i + |h| == |a| ensures !WordAt(t, h, i) { PrefixWord(t, |a|, h, i); }
  }

  /** Two sides around a joint: the first says words of one class, the second those of the other, first where its rest begins. */
  ghost predicate TwoSides(left: seq<string>, g: string, front: seq<string>, rest: seq<string>, one: set<string>, other: set<string>) {
    && AllPlain(left) && AllPlain(front) && AllPlain(rest) && left != [] && rest != [] && g in JOINTS
    && Says(left, one) && !Says(left, other) && !Says(front + rest, one) && !Says(front, other) && rest[0] in other
    && !Says(front, JOINTS) && left[|left| - 1] !in JOINTS
  }

  lemma SidesAround(left: seq<string>, g: string, right: seq<string>)
    requires AllPlain(left) && AllPlain(right) && left != [] && right != [] && g in JOINTS
    ensures Around(Sentence(left + ([g] + right)), Sentence(left), g, Sentence(right)) && AllPlain(left + ([g] + right))
  {
    JointsArePlain();
    Join([g], right);
    Join(left, [g] + right);
  }

  lemma NoJointEnds(left: seq<string>, a: string)
    requires AllPlain(left) && left != [] && left[|left| - 1] !in JOINTS && a == Sentence(left)
    ensures forall i: nat, h :: h in JOINTS && i + |h| == |a| ==> !WordAt(a, h, i)
  {
    JointsArePlain();
    forall i: nat, h | h in JOINTS && i + |h| == |a| ensures !WordAt(a, h, i) {
      if WordAt(a, h, i) { LastWord(left, h, i); }
    }
  }

  lemma WordBegins(rest: seq<string>, class_: set<string>)
    requires AllPlain(rest) && rest != [] && rest[0] in class_
    ensures AnyWordAt(Sentence(rest), class_, 0)
  {
    var tail := GroundingSentences.Split(rest);
    assert Sentence(rest)[0..|rest[0]|] == rest[0];
    assert WordAt(Sentence(rest), rest[0], 0);
  }

  /** The first word of a class is where the rest begins. */
  lemma FirstOfRest(front: seq<string>, rest: seq<string>, class_: set<string>)
    requires AllPlain(front) && AllPlain(rest) && PlainWords(class_) && rest != [] && rest[0] in class_ && !Says(front, class_)
    ensures var k := FirstWord(Sentence(front + rest), class_, 0); 0 <= k <= |Sentence(front + rest)| && Before(Sentence(front + rest), Sentence(front), k)
  {
    WordBegins(rest, class_);
    if front == [] {
      assert front + rest == rest;
    } else {
      Join(front, rest);
      WordsInSentence(front, class_);
      var b, n := Sentence(front + rest), |Sentence(front)|;
      assert b[n + 1..] == Sentence(rest) && b[..n] == Sentence(front);
      FirstBehind(b, n, class_, 0);
    }
  }

  lemma FirstSide(left: seq<string>, t: string, g: string, b: string, one: set<string>)
    requires AllPlain(left) && PlainWords(one) && Says(left, one) && Around(t, Sentence(left), g, b)
    ensures 0 <= FirstWord(t, one, 0) < |Sentence(left)|
  {
    PartsAround(t, Sentence(left), g, b);
    WordsInSentence(left, one);
    FirstIn(t, |Sentence(left)|, one);
  }

  lemma NotTheJoint(g: string, class_: set<string>)
    requires IsPlainWord(g) && PlainWords(class_) && g !in class_
    ensures !HasWord(g, class_)
  {
    WordsInSentence([g], class_);
  }

  lemma SecondSide(left: seq<string>, t: string, g: string, front: seq<string>, rest: seq<string>, other: set<string>)
    returns (k: nat)
    requires AllPlain(left) && AllPlain(front) && AllPlain(rest) && PlainWords(other) && IsPlainWord(g) && g !in other
    requires !Says(left, other) && !Says(front, other) && rest != [] && rest[0] in other
    requires Around(t, Sentence(left), g, Sentence(front + rest))
    ensures k <= |Sentence(front + rest)| && Before(Sentence(front + rest), Sentence(front), k)
    ensures FirstWord(t, other, 0) == |Sentence(left)| + |g| + 2 + k
  {
    WordsInSentence(left, other);
    NotTheJoint(g, other);
    FirstOfRest(front, rest, other);
    k := FirstWord(Sentence(front + rest), other, 0);
    FirstInSecond(t, Sentence(left), g, Sentence(front + rest), other, k);
  }

  lemma SidesLone(left: seq<string>, t: string, g: string, front: seq<string>, b: string, k: nat)
    requires AllPlain(left) && AllPlain(front) && left != [] && left[|left| - 1] !in JOINTS && !Says(front, JOINTS) && g in JOINTS
    requires Around(t, Sentence(left), g, b) && PlainText(t) && k <= |b| && Before(b, Sentence(front), k)
    ensures LoneJoint(t, |Sentence(left)|, g, |Sentence(left)| + |g| + 2 + k)
  {
    JointsArePlain();
    NoJointEnds(left, Sentence(left));
    WordsInSentence(front, JOINTS);
    IsLoneJoint(t, Sentence(left), g, b, Sentence(front), k);
  }

  lemma JointCut(left: seq<string>, t: string, g: string, front: seq<string>, b: string, at: nat, end: nat)
    requires AllPlain(left) && AllPlain(front) && left != [] && left[|left| - 1] !in JOINTS && !Says(front, JOINTS) && g in JOINTS
    requires Around(t, Sentence(left), g, b) && PlainText(t) && at == |Sentence(left)| && at + |g| + 2 <= end
    requires end - at - |g| - 2 <= |b| && Before(b, Sentence(front), end - at - |g| - 2)
    ensures LoneJoint(t, at, g, end)
  {
    SidesLone(left, t, g, front, b, end - at - |g| - 2);
  }

  /** Where the two sides are found, with a lone joint between them. */
  lemma SidesFound(left: seq<string>, t: string, g: string, front: seq<string>, rest: seq<string>, one: set<string>, other: set<string>,
                   at: nat)
    returns (first: nat, second: nat)
    requires TwoSides(left, g, front, rest, one, other) && PlainWords(one) && PlainWords(other) && g !in other && IsPlainWord(g)
    requires Around(t, Sentence(left), g, Sentence(front + rest)) && PlainText(t) && at == |Sentence(left)|
    ensures FirstWord(t, one, 0) == first < at && FirstWord(t, other, 0) == second && LoneJoint(t, at, g, second)
  {
    FirstSide(left, t, g, Sentence(front + rest), one);
    var k := SecondSide(left, t, g, front, rest, other);
    first, second := FirstWord(t, one, 0), FirstWord(t, other, 0);
    JointCut(left, t, g, front, Sentence(front + rest), at, second);
  }

  lemma LoneIsCut(t: string, first: nat, at: nat, g: string, end: nat, start: nat)
    requires LoneJoint(t, at, g, end) && first < at && start == at + |g| + 2
    ensures first < end <= |t| && at < start && CutBetween(t, first, end) == Some((at, start))
  {
    var sep := LastIsJoint(t, first, at, g, end);
    CutIs(t, first, end, sep, at, start);
  }

  lemma SaysLater(front: seq<string>, rest: seq<string>, class_: set<string>)
    requires rest != [] && rest[0] in class_
    ensures Says(front + rest, class_)
  {
    assert (front + rest)[|front|] == rest[0];
  }

  /** The two segments, and what each of them says. */
  ghost predicate Halves(t: string, at: nat, start: nat, a: string, b: string, one: set<string>, other: set<string>) {
    && at < start <= |t| && Trim(t[..at]) == a && Trim(t[start..]) == b && a != [] && b != []
    && HasWord(a, one) && !HasWord(a, other) && HasWord(b, other) && !HasWord(b, one)
  }

  lemma SidesHalve(left: seq<string>, t: string, g: string, front: seq<string>, rest: seq<string>, one: set<string>, other: set<string>,
                   at: nat, start: nat)
    requires TwoSides(left, g, front, rest, one, other) && PlainWords(one) && PlainWords(other)
    requires Around(t, Sentence(left), g, Sentence(front + rest)) && at == |Sentence(left)| && start == at + |g| + 2
    ensures Halves(t, at, start, Sentence(left), Sentence(front + rest), one, other)
  {
    SideTexts(left, t, g, front + rest, at, start);
    SaysLater(front, rest, other);
    SideWords(left, front + rest, one, other);
  }

  lemma SplitIs(t: string, funds: nat, card: nat, at: nat, start: nat, a: string, b: string)
    requires Trim(Collapse(t)) == t && FirstWord(t, FUNDS_WORDS, 0) == funds && FirstWord(t, CARD_WORDS, 0) == card
    requires Halves(t, at, start, a, b, FUNDS_WORDS, CARD_WORDS)
    requires funds < card <= |t| && CutBetween(t, funds, card) == Some((at, start))
    ensures SplitMixed(t) == Some(Segments(a, b))
  {}

  lemma SplitIsBack(t: string, funds: nat, card: nat, at: nat, start: nat, a: string, b: string)
    requires Trim(Collapse(t)) == t && FirstWord(t, FUNDS_WORDS, 0) == funds && FirstWord(t, CARD_WORDS, 0) == card
    requires Halves(t, at, start, a, b, CARD_WORDS, FUNDS_WORDS)
    requires card < funds <= |t| && CutBetween(t, card, funds) == Some((at, start))
    ensures SplitMixed(t) == Some(Segments(b, a))
  {}

  lemma WholeText(left: seq<string>, g: string, right: seq<string>, t: string)
    requires AllPlain(left) && AllPlain(right) && left != [] && right != [] && g in JOINTS && t == Sentence(left + ([g] + right))
    ensures Around(t, Sentence(left), g, Sentence(right)) && PlainText(t) && Trim(Collapse(t)) == t
  {
    SidesAround(left, g, right);
    SentenceIsPlain(left + ([g] + right));
    CollapseSentence(left + ([g] + right));
    TrimSentence(left + ([g] + right));
  }

  lemma SideTexts(left: seq<string>, t: string, g: string, right: seq<string>, at: nat, start: nat)
    requires AllPlain(left) && AllPlain(right) && left != [] && right != [] && Around(t, Sentence(left), g, Sentence(right))
    requires at == |Sentence(left)| && start == at + |g| + 2
    ensures at < start <= |t| && Trim(t[..at]) == Sentence(left) && Trim(t[start..]) == Sentence(right)
    ensures Sentence(left) != [] && Sentence(right) != []
  {
    PartsAround(t, Sentence(left), g, Sentence(right));
    TrimSentence(left);
    TrimSentence(right);
    SentenceEnds(left);
    SentenceEnds(right);
  }

  lemma SideWords(left: seq<string>, right: seq<string>, one: set<string>, other: set<string>)
    requires AllPlain(left) && AllPlain(right) && PlainWords(one) && PlainWords(other)
    requires Says(left, one) && !Says(left, other) && Says(right, other) && !Says(right, one)
    ensures HasWord(Sentence(left), one) && !HasWord(Sentence(left), other)
    ensures HasWord(Sentence(right), other) && !HasWord(Sentence(right), one)
  {
    WordsInSentence(left, one);
    WordsInSentence(left, other);
    WordsInSentence(right, other);
    WordsInSentence(right, one);
  }

  lemma JointIsNoName(g: string)
    requires g in JOINTS
    ensures g !in FUNDS_WORDS && g !in CARD_WORDS && IsPlainWord(g)
  {
    JointsArePlain();
  }

  lemma FundsFirst(left: seq<string>, g: string, front: seq<string>, rest: seq<string>, t: string, at: nat, start: nat)
    requires TwoSides(left, g, front, rest, FUNDS_WORDS, CARD_WORDS) && at == |Sentence(left)| && start == at + |g| + 2
    requires Around(t, Sentence(left), g, Sentence(front + rest)) && PlainText(t) && Trim(Collapse(t)) == t
    ensures SplitMixed(t) == Some(Segments(Sentence(left), Sentence(front + rest)))
  {
    Classes();
    JointIsNoName(g);
    var first, second := SidesFound(left, t, g, front, rest, FUNDS_WORDS, CARD_WORDS, at);
    LoneIsCut(t, first, at, g, second, start);
    SidesHalve(left, t, g, front, rest, FUNDS_WORDS, CARD_WORDS, at, start);
    SplitIs(t, first, second, at, start, Sentence(left), Sentence(front + rest));
  }

  lemma CardFirst(left: seq<string>, g: string, front: seq<string>, rest: seq<string>, t: string, at: nat, start: nat)
    requires TwoSides(left, g, front, rest, CARD_WORDS, FUNDS_WORDS) && at == |Sentence(left)| && start == at + |g| + 2
    requires Around(t, Sentence(left), g, Sentence(front + rest)) && PlainText(t) && Trim(Collapse(t)) == t
    ensures SplitMixed(t) == Some(Segments(Sentence(front + rest), Sentence(left)))
  {
    Classes();
    JointIsNoName(g);
    var first, second := SidesFound(left, t, g, front, rest, CARD_WORDS, FUNDS_WORDS, at);
    LoneIsCut(t, first, at, g, second, start);
    SidesHalve(left, t, g, front, rest, CARD_WORDS, FUNDS_WORDS, at, start);
    SplitIsBack(t, second, first, at, start, Sentence(left), Sentence(front + rest));
  }

  // A plain sentence about an account and a card falls apart at the joint that stands
  // before the second of the two sides: what is before it is one segment, what is behind
  // it the other, whichever side is named first.
  lemma SentenceSplits(left: seq<string>, g: string, front: seq<string>, rest: seq<string>)
    ensures TwoSides(left, g, front, rest, FUNDS_WORDS, CARD_WORDS) ==>
              SplitMixed(Sentence(left + ([g] + (front + rest)))) == Some(Segments(Sentence(left), Sentence(front + rest)))
    ensures TwoSides(left, g, front, rest, CARD_WORDS, FUNDS_WORDS) ==>
              SplitMixed(Sentence(left + ([g] + (front + rest)))) == Some(Segments(Sentence(front + rest), Sentence(left)))
  {
    var t := Sentence(left + ([g] + (front + rest)));
    if TwoSides(left, g, front, rest, FUNDS_WORDS, CARD_WORDS) {
      WholeText(left, g, front + rest, t);
      FundsFirst(left, g, front, rest, t, |Sentence(left)|, |Sentence(left)| + |g| + 2);
    }
    if TwoSides(left, g, front, rest, CARD_WORDS, FUNDS_WORDS) {
      WholeText(left, g, front + rest, t);
      CardFirst(left, g, front, rest, t, |Sentence(left)|, |Sentence(left)| + |g| + 2);
    }
  }
}
