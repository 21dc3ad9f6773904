// The one-pass fence around untrusted text (deskhand/runtime/transcript.py and trigger/src/fence.ts).
module Fence {

  const STRIPPED_MARKER: string := "[fence marker stripped]"

  // A fence token is the head of a hex digest.
  predicate IsToken(token: string) { forall c :: c in token ==> '0' <= c <= '9' || 'a' <= c <= 'f' }

  function Opener(token: string): string { "<<<untrusted:" + token + ">>>" }

  function Closer(token: string): string { "<<</untrusted:" + token + ">>>" }

  // The markers tell the token, and an opener is not a closer: what another run's fence left in a text
  // neither opens nor closes this one.
  lemma {:induction false} MarkersTellTheToken(a: string, b: string)
    ensures Opener(a) == Opener(b) <==> a == b
    ensures Closer(a) == Closer(b) <==> a == b
    ensures Opener(a) != Closer(b)
  {
    assert |Opener(a)| == |a| + 16 && Opener(a)[13..|a| + 13] == a && Opener(b)[13..|b| + 13] == b;
    assert |Closer(a)| == |a| + 17 && Closer(a)[14..|a| + 14] == a && Closer(b)[14..|b| + 14] == b;
    assert Opener(a)[3] == 'u' && Closer(b)[3] == '/';
  }

  // Does `mark` occur in `s` at position `i`?
  predicate At(s: string, mark: string, i: nat) {
    i + |mark| <= |s| && s[i..i + |mark|] == mark
  }

  // One left-to-right pass of `str.replace(mark, sub)`: occurrences do not overlap.
  function Replace(s: string, mark: string, sub: string): string
    requires mark != ""
  {
    if s == [] then []
    else if At(s, mark, 0) then sub + Replace(s[|mark|..], mark, sub)
    else [s[0]] + Replace(s[1..], mark, sub)
  }

  function Cleaned(token: string, body: string): string {
    Replace(Replace(body, Opener(token), STRIPPED_MARKER), Closer(token), STRIPPED_MARKER)
  }

  function Quarantine(token: string, body: string): string {
    Opener(token) + "\n" + Cleaned(token, body) + "\n" + Closer(token)
  }

  // --------------------------------------------------------- what one pass does

  ghost predicate Absent(s: string, mark: string) { forall i: nat :: !At(s, mark, i) }

  // Text of the result that does not contain the first character of the substitute is text of the input.
  lemma {:induction false} VerbatimHead(s: string, mark: string, sub: string, n: nat)
    requires mark != "" && sub != "" && n <= |Replace(s, mark, sub)|
    requires sub[0] !in Replace(s, mark, sub)[..n]
    ensures n <= |s| && s[..n] == Replace(s, mark, sub)[..n]
  {
    if n > 0 {
      var r := Replace(s, mark, sub);
      assert r[..n][0] == r[0] && r[0] in r[..n];
      if !At(s, mark, 0) {
        assert r[1..] == Replace(s[1..], mark, sub) && r[1..][..n - 1] == r[..n][1..];
        VerbatimHead(s[1..], mark, sub, n - 1);
        assert s[..n] == [s[0]] + s[1..][..n - 1] && r[..n] == [r[0]] + r[1..][..n - 1];
      }
    }
  }

  lemma {:induction false} AtShift(s: string, prefix: string, mark: string, i: nat)
    requires i >= |prefix|
    ensures At(prefix + s, mark, i) <==> At(s, mark, i - |prefix|)
  {
    var k := i - |prefix|;
    if i + |mark| <= |prefix + s| {
      assert (prefix + s)[i..i + |mark|] == s[k..k + |mark|];
    }
  }

  lemma {:induction false} AtHead(s: string, mark: string, i: nat)
    requires At(s, mark, i) && mark != ""
    ensures i < |s| && s[i] == mark[0] && forall p :: i <= p < i + |mark| ==> s[p] == mark[p - i]
  {
    forall p | i <= p < i + |mark| ensures s[p] == mark[p - i] {
      assert s[i..i + |mark|][p - i] == mark[p - i];
    }
  }

  // A marker that was not there before a pass is not there after it, provided the substitute neither
  // contains the marker's first character nor starts with a character of the marker.
  lemma {:induction false} PassKeepsAbsent(s: string, mark: string, sub: string, other: string)
    requires mark != "" && sub != "" && other != ""
    requires other[0] !in sub && sub[0] !in other
    requires Absent(s, other)
    ensures Absent(Replace(s, mark, sub), other)
  {
    var r := Replace(s, mark, sub);
    forall i: nat ensures !At(r, other, i) {
      if At(r, other, i) {
        PassMakesNone(s, mark, sub, other, i);
      }
    }
  }

  lemma {:induction false} PassMakesNone(s: string, mark: string, sub: string, other: string, i: nat)
    requires mark != "" && sub != "" && other != ""
    requires other[0] !in sub && sub[0] !in other
    requires At(Replace(s, mark, sub), other, i)
    ensures exists j: nat :: At(s, other, j) && (j == 0 ==> !At(s, mark, 0))
    decreases |s|
  {
    var r := Replace(s, mark, sub);
    AtHead(r, other, i);
    if At(s, mark, 0) {
      var rest := s[|mark|..];
      assert forall m :: 0 <= m < |sub| ==> r[m] == sub[m] && sub[m] in sub;
      assert i >= |sub|;
      AtShift(Replace(rest, mark, sub), sub, other, i);
      PassMakesNone(rest, mark, sub, other, i - |sub|);
      var j: nat :| At(rest, other, j);
      assert s == s[..|mark|] + rest;
      AtShift(rest, s[..|mark|], other, j + |mark|);
    } else if i == 0 {
      assert r[..|other|] == other;
      VerbatimHead(s, mark, sub, |other|);
      assert At(s, other, 0);
    } else {
      AtShift(Replace(s[1..], mark, sub), [s[0]], other, i);
      PassMakesNone(s[1..], mark, sub, other, i - 1);
      var j: nat :| At(s[1..], other, j);
      assert s == [s[0]] + s[1..];
      AtShift(s[1..], [s[0]], other, j + 1);
    }
  }

  // One pass is enough: it leaves none of the marker it replaces.
  lemma {:induction false} PassRemovesAll(s: string, mark: string, sub: string)
    requires mark != "" && sub != "" && mark[0] !in sub && sub[0] !in mark
    ensures Absent(Replace(s, mark, sub), mark)
    decreases |s|
  {
    var r := Replace(s, mark, sub);
    forall i: nat ensures !At(r, mark, i) {
      if At(r, mark, i) {
        AtHead(r, mark, i);
        if At(s, mark, 0) {
          assert forall m :: 0 <= m < |sub| ==> r[m] == sub[m] && sub[m] in sub;
          assert i >= |sub|;
          AtShift(Replace(s[|mark|..], mark, sub), sub, mark, i);
          PassRemovesAll(s[|mark|..], mark, sub);
        } else if i == 0 {
          assert r[..|mark|] == mark;
          VerbatimHead(s, mark, sub, |mark|);
        } else {
          AtShift(Replace(s[1..], mark, sub), [s[0]], mark, i);
          PassRemovesAll(s[1..], mark, sub);
        }
      }
    }
  }

  lemma {:induction false} NothingToReplace(s: string, mark: string, sub: string)
    requires mark != "" && Absent(s, mark)
    ensures Replace(s, mark, sub) == s
  {
    if s != [] {
      forall i: nat ensures !At(s[1..], mark, i) {
        AtShift(s[1..], [s[0]], mark, i + 1);
        assert s == [s[0]] + s[1..];
      }
      NothingToReplace(s[1..], mark, sub);
    }
  }

  // ------------------------------------------------------------- the two markers

  // What matters about a marker: three angle brackets, a fourth character that tells opener from
  // closer, no further `<`, no newline, and nothing of the placeholder's bracket.
  ghost predicate MarkerShape(mark: string, fourth: char) {
    && |mark| >= 4 && mark[0] == '<' && mark[1] == '<' && mark[2] == '<' && mark[3] == fourth && fourth != '<'
    && (forall k :: 3 <= k < |mark| ==> mark[k] != '<')
    && '\n' !in mark && '[' !in mark
  }

  lemma {:induction false} Shapes(token: string)
    requires IsToken(token)
    ensures MarkerShape(Opener(token), 'u') && MarkerShape(Closer(token), '/')
  {
    var head, mark := "<<<untrusted:", Opener(token);
    assert mark == head + token + ">>>";
    forall k | 3 <= k < |mark| ensures mark[k] != '<' && mark[k] != '\n' && mark[k] != '[' {
      if 13 <= k < 13 + |token| {
        assert mark[k] == token[k - 13] && mark[k] in token;
      }
    }
    var head2, mark2 := "<<</untrusted:", Closer(token);
    assert mark2 == head2 + token + ">>>";
    forall k | 3 <= k < |mark2| ensures mark2[k] != '<' && mark2[k] != '\n' && mark2[k] != '[' {
      if 14 <= k < 14 + |token| {
        assert mark2[k] == token[k - 14] && mark2[k] in token;
      }
    }
  }

  lemma {:induction false} PlaceholderShape()
    ensures STRIPPED_MARKER != "" && STRIPPED_MARKER[0] == '[' && '<' !in STRIPPED_MARKER
  {
  }

  // After the two passes the body holds neither marker.
  lemma {:induction false} CleanedHasNone(token: string, body: string)
    requires IsToken(token)
    ensures Absent(Cleaned(token, body), Opener(token)) && Absent(Cleaned(token, body), Closer(token))
  {
    Shapes(token);
    PlaceholderShape();
    hide Opener, Closer, Replace;
    var once := Replace(body, Opener(token), STRIPPED_MARKER);
    PassRemovesAll(body, Opener(token), STRIPPED_MARKER);
    PassKeepsAbsent(once, Closer(token), STRIPPED_MARKER, Opener(token));
    PassRemovesAll(once, Closer(token), STRIPPED_MARKER);
  }

  // Three angle brackets in a row are found only where a marker starts.
  lemma {:induction false} BracketsStart(mark: string, f: char)
    requires MarkerShape(mark, f)
    ensures forall q :: 0 < q && q + 2 < |mark| ==> mark[q] != '<' || mark[q + 1] != '<' || mark[q + 2] != '<'
  {
  }

  // Where a marker can occur in fenced text: in the opener, in the body, or in the closer; never across.
  lemma {:induction false} OccursWhole(first: string, f: char, body: string, last: string, g: char, mark: string, h: char, i: nat)
    requires MarkerShape(first, f) && MarkerShape(last, g) && MarkerShape(mark, h) && Absent(body, mark)
    requires At(first + "\n" + body + "\n" + last, mark, i)
    ensures (i == 0 && h == f) || (i == |first| + 1 + |body| + 1 && h == g)
  {
    var s := first + "\n" + body + "\n" + last;
    var from, to := |first| + 1, |first| + 1 + |body|;
    AtHead(s, mark, i);
    BracketsStart(first, f);
    BracketsStart(last, g);
    forall p | i <= p < i + |mark| ensures s[p] != '\n' {
      assert mark[p - i] in mark;
    }
    assert s[|first|] == '\n' && s[to] == '\n';
    assert forall k :: 0 <= k < |first| ==> s[k] == first[k];
    assert forall k :: to < k < |s| ==> s[k] == last[k - (to + 1)];
    assert s[i] == '<' && s[i + 1] == '<' && s[i + 2] == '<' && s[i + 3] == h;
    assert s == first + "\n" + body + ("\n" + last);
    if from <= i && i + |mark| <= to {
      NotInBody(first + "\n", body, "\n" + last, mark, i);
    }
  }

  lemma {:induction false} NotInBody(head: string, body: string, tail: string, mark: string, i: nat)
    requires Absent(body, mark) && |head| <= i && i + |mark| <= |head| + |body|
    ensures !At(head + body + tail, mark, i)
  {
    assert !At(body, mark, i - |head|);
    assert (head + body + tail)[i..i + |mark|] == body[i - |head|..i - |head| + |mark|];
  }

  // Whatever the body says, the fenced text has exactly one opener, at the start, and exactly one
  // closer, at the end.
  lemma {:induction false} FencedOnce(token: string, body: string, i: nat)
    requires IsToken(token)
    ensures At(Quarantine(token, body), Opener(token), i) <==> i == 0
    ensures At(Quarantine(token, body), Closer(token), i) <==> i == |Quarantine(token, body)| - |Closer(token)|
  {
    Shapes(token);
    CleanedHasNone(token, body);
    var o, c, k := Opener(token), Cleaned(token, body), Closer(token);
    hide Opener, Closer, Cleaned, Replace;
    var s := Quarantine(token, body);
    assert s == o + "\n" + c + "\n" + k;
    assert |s| - |k| == |o| + 1 + |c| + 1;
    assert s[..|o|] == o && s[|s| - |k|..] == k;
    assert At(s, o, 0) && At(s, k, |s| - |k|);
    if At(s, o, i) {
      OccursWhole(o, 'u', c, k, '/', o, 'u', i);
    }
    if At(s, k, i) {
      OccursWhole(o, 'u', c, k, '/', k, '/', i);
    }
  }

  // A body without markers is recovered exactly, by taking off the two fence lines.
  lemma {:induction false} BodyRecovered(token: string, body: string)
    requires Absent(body, Opener(token)) && Absent(body, Closer(token))
    ensures var s := Quarantine(token, body);
            |s| >= |Opener(token)| + |Closer(token)| + 2
            && s[|Opener(token)| + 1..|s| - |Closer(token)| - 1] == body
  {
    NothingToReplace(body, Opener(token), STRIPPED_MARKER);
    NothingToReplace(body, Closer(token), STRIPPED_MARKER);
    hide Opener, Closer, Replace;
  }

  // ---------------------------------------------------------- split and join

  // `s.split(mark)`: the pieces between occurrences found from left to right.
  function Split(s: string, mark: string): (pieces: seq<string>)
    requires mark != ""
    ensures |pieces| > 0
  {
    if s == [] then [""]
    else if At(s, mark, 0) then [""] + Split(s[|mark|..], mark)
    else
      var rest := Split(s[1..], mark);
      [[s[0]] + rest[0]] + rest[1..]
  }

  function Join(pieces: seq<string>, sub: string): string
    requires |pieces| > 0
  {
    if |pieces| == 1 then pieces[0] else pieces[0] + sub + Join(pieces[1..], sub)
  }

  lemma {:induction false} JoinFirst(c: char, pieces: seq<string>, sub: string)
    requires |pieces| > 0
    ensures Join([[c] + pieces[0]] + pieces[1..], sub) == [c] + Join(pieces, sub)
  {
    var longer := [[c] + pieces[0]] + pieces[1..];
    assert longer[1..] == pieces[1..];
    if |pieces| > 1 {
      var tail := sub + Join(pieces[1..], sub);
      assert Join(pieces, sub) == pieces[0] + tail;
      assert Join(longer, sub) == [c] + pieces[0] + tail;
    }
  }

  lemma {:induction false} JoinEmptyFirst(pieces: seq<string>, sub: string)
    requires |pieces| > 0
    ensures Join([""] + pieces, sub) == sub + Join(pieces, sub)
  {
    assert ([""] + pieces)[1..] == pieces;
  }

  // Splitting at a marker and joining with a placeholder is one pass of replacement.
  lemma {:induction false} SplitJoinIsReplace(s: string, mark: string, sub: string)
    requires mark != ""
    ensures Join(Split(s, mark), sub) == Replace(s, mark, sub)
    decreases |s|
  {
    if s != [] {
      hide Join, At;
      if At(s, mark, 0) && |mark| <= |s| {
        SplitJoinIsReplace(s[|mark|..], mark, sub);
        JoinEmptyFirst(Split(s[|mark|..], mark), sub);
      } else {
        SplitJoinIsReplace(s[1..], mark, sub);
        JoinFirst(s[0], Split(s[1..], mark), sub);
      }
    }
  }

  // The trigger port's version gives the same text.
  function QuarantineBySplitting(token: string, body: string): string {
    var once := Join(Split(body, Opener(token)), STRIPPED_MARKER);
    Opener(token) + "\n" + Join(Split(once, Closer(token)), STRIPPED_MARKER) + "\n" + Closer(token)
  }

  lemma {:induction false} BothFencesAgree(token: string, body: string)
    ensures QuarantineBySplitting(token, body) == Quarantine(token, body)
  {
    SplitJoinIsReplace(body, Opener(token), STRIPPED_MARKER);
    SplitJoinIsReplace(Replace(body, Opener(token), STRIPPED_MARKER), Closer(token), STRIPPED_MARKER);
    hide Opener, Closer, Replace, Split, Join;
  }

  // --------------------------------------------- why the marker is replaced, not deleted

  // A marker between two texts in which it does not start is replaced, and nothing else is.
  lemma {:induction false} ReplaceOne(a: string, mark: string, b: string, sub: string)
    requires mark != "" && Absent(b, mark)
    requires forall i: nat :: i < |a| ==> !At(a + mark + b, mark, i)
    ensures Replace(a + mark + b, mark, sub) == a + sub + b
  {
    var s := a + mark + b;
    if a == "" {
      assert s == mark + b;
      assert s[|mark|..] == b && At(s, mark, 0);
      NothingToReplace(b, mark, sub);
    } else {
      var t := a[1..] + mark + b;
      assert s[1..] == t;
      assert s == [s[0]] + t;
      forall i: nat | i < |a[1..]| ensures !At(t, mark, i) {
        AtShift(t, [s[0]], mark, i + 1);
        assert !At(s, mark, i + 1);
      }
      ReplaceOne(a[1..], mark, b, sub);
      assert !At(s, mark, 0);
    }
  }

  // A pass that deletes the closer can spell the closer it deleted.
  lemma {:induction false} DeletingSpellsTheCloser(token: string)
    requires IsToken(token)
    ensures Replace("<<</untrusted:" + Closer(token) + token + ">>>", Closer(token), "") == Closer(token)
  {
    var a, k, b := "<<</untrusted:", Closer(token), token + ">>>";
    Shapes(token);
    var s := a + k + b;
    assert s == a + Closer(token) + token + ">>>";
    assert k == a + b;
    hide Closer, Replace;
    forall j | 0 <= j < |b| ensures b[j] != '<' {
      assert j < |token| ==> b[j] == token[j] && token[j] in token;
    }
    forall i: nat ensures !At(b, k, i) {
      if At(b, k, i) {
        AtHead(b, k, i);
      }
    }
    assert s[12] == 'd' && s[13] == ':' && s[14] == '<';
    forall i: nat | i < |a| ensures !At(s, k, i) {
      if At(s, k, i) {
        AtHead(s, k, i);
      }
    }
    ReplaceOne(a, k, b, "");
    assert a + "" + b == k;
  }
}
