/** The user schema's email pattern `^\w+([\.-]?\w+)*@\w+([\.-]?\w+)*(\.\w{2,3})+$`
    (src/models/User.ts): the pattern's structure, an equivalent check by scanning, and the
    proof that the two agree. */
module UserEmail {
  import opened Wrappers
  import opened Text

  /** `\w`: an ASCII letter, a digit or '_'. */
  predicate IsWordChar(c: char) {
    ('a' <= c <= 'z') || ('A' <= c <= 'Z') || ('0' <= c <= '9') || c == '_'
  }

  /** `[\.-]`. */
  predicate IsSep(c: char) {
    c == '.' || c == '-'
  }

  // The pattern, part by part.

  /** `\w+`. */
  ghost predicate WordRun(x: string) {
    |x| > 0 && forall k :: 0 <= k < |x| ==> IsWordChar(x[k])
  }

  /** `[\.-]?\w+`. */
  ghost predicate Piece(x: string) {
    WordRun(x) || (|x| > 1 && IsSep(x[0]) && WordRun(x[1..]))
  }

  /** `([\.-]?\w+)*`. */
  ghost predicate Pieces(x: string)
    decreases |x|
  {
    x == [] || exists k :: 0 < k <= |x| && Piece(x[..k]) && Pieces(x[k..])
  }

  /** `\w+([\.-]?\w+)*`, the part before the '@' and the start of the part after it. */
  ghost predicate NamePattern(x: string) {
    exists k :: 0 < k <= |x| && WordRun(x[..k]) && Pieces(x[k..])
  }

  /** `\.\w{2,3}`. */
  ghost predicate Label(x: string) {
    (|x| == 3 || |x| == 4) && x[0] == '.' && WordRun(x[1..])
  }

  /** `(\.\w{2,3})+`. */
  ghost predicate Labels(x: string)
    decreases |x|
  {
    exists k :: 0 < k <= |x| && Label(x[..k]) && (k == |x| || Labels(x[k..]))
  }

  /** `\w+([\.-]?\w+)*(\.\w{2,3})+`. */
  ghost predicate DomainPattern(d: string) {
    exists k :: 0 <= k <= |d| && NamePattern(d[..k]) && Labels(d[k..])
  }

  /** The whole pattern, anchored at both ends. */
  ghost predicate EmailPattern(s: string) {
    exists i :: 0 <= i < |s| && s[i] == '@' && NamePattern(s[..i]) && DomainPattern(s[i + 1..])
  }

  // The same language, decided by scanning.

  /** Word characters and separators only, never two separators in a row, and a word
      character last. */
  predicate Chain(x: string) {
    && (forall k :: 0 <= k < |x| ==> IsWordChar(x[k]) || IsSep(x[k]))
    && (forall k :: 0 <= k < |x| - 1 ==> !(IsSep(x[k]) && IsSep(x[k + 1])))
    && (x != [] ==> IsWordChar(x[|x| - 1]))
  }

  /** A non-empty chain that starts with a word character. */
  predicate IsName(x: string) {
    x != [] && IsWordChar(x[0]) && Chain(x)
  }

  /** The position of the last separator. */
  function LastSep(d: string): (r: Option<nat>)
    ensures r.Some? ==> r.value < |d| && IsSep(d[r.value])
    ensures r.Some? ==> forall k :: r.value < k < |d| ==> !IsSep(d[k])
    ensures r.None? ==> forall k :: 0 <= k < |d| ==> !IsSep(d[k])
  {
    if d == [] then None
    else if IsSep(d[|d| - 1]) then Some(|d| - 1)
    else LastSep(d[..|d| - 1])
  }

  /** A name whose last separator is a '.' followed by two or three word characters. */
  predicate IsDomain(d: string) {
    && IsName(d)
    && match LastSep(d)
       case None => false
       case Some(j) => d[j] == '.' && (|d| - j == 3 || |d| - j == 4)
  }

  /** The executable email test: a name, the first '@', a domain. */
  predicate IsUserEmail(s: string) {
    match IndexOf(s, '@', 0)
    case None => false
    case Some(i) => IsName(s[..i]) && IsDomain(s[i + 1..])
  }

  // Agreement.

  lemma ChainAppend(a: string, b: string)
    requires Chain(a) && Chain(b)
    ensures Chain(a + b)
  {
    var c := a + b;
    forall k | 0 <= k < |c| - 1 ensures !(IsSep(c[k]) && IsSep(c[k + 1])) {
      if k + 1 < |a| {
        assert c[k] == a[k] && c[k + 1] == a[k + 1];
      } else if k + 1 == |a| {
        assert c[k] == a[|a| - 1];
      } else {
        assert c[k] == b[k - |a|] && c[k + 1] == b[k - |a| + 1];
      }
    }
  }

  lemma ChainSuffix(x: string, k: nat)
    requires Chain(x) && k <= |x|
    ensures Chain(x[k..])
  {
    var y := x[k..];
    assert forall i :: 0 <= i < |y| ==> y[i] == x[k + i];
  }

  lemma PieceIsChain(x: string)
    requires Piece(x)
    ensures Chain(x)
  {
  }

  lemma {:induction false} PiecesIsChain(x: string)
    requires Pieces(x)
    ensures Chain(x)
    decreases |x|
  {
    if x != [] {
      var k :| 0 < k <= |x| && Piece(x[..k]) && Pieces(x[k..]);
      PieceIsChain(x[..k]);
      PiecesIsChain(x[k..]);
      ChainAppend(x[..k], x[k..]);
      assert x == x[..k] + x[k..];
    }
  }

  lemma {:induction false} ChainIsPieces(x: string)
    requires Chain(x)
    ensures Pieces(x)
    decreases |x|
  {
    if x != [] {
      var k := if IsSep(x[0]) then 2 else 1;
      assert |x| >= k;
      assert Piece(x[..k]) by {
        if k == 2 {
          assert x[..k][1..] == [x[1]];
        }
      }
      ChainSuffix(x, k);
      ChainIsPieces(x[k..]);
    }
  }

  /** `\w+([\.-]?\w+)*` holds exactly of names. */
  lemma NamePatternIffName(x: string)
    ensures NamePattern(x) <==> IsName(x)
  {
    if NamePattern(x) {
      var k :| 0 < k <= |x| && WordRun(x[..k]) && Pieces(x[k..]);
      PiecesIsChain(x[k..]);
      assert Chain(x[..k]);
      ChainAppend(x[..k], x[k..]);
      assert x == x[..k] + x[k..];
      assert x[0] == x[..k][0];
    }
    if IsName(x) {
      ChainSuffix(x, 1);
      ChainIsPieces(x[1..]);
      assert WordRun(x[..1]);
    }
  }

  /** `t` ends with a '.' at `j` followed by two or three word characters. */
  ghost predicate LastLabelAt(t: string, j: int) {
    0 <= j < |t| && t[j] == '.' && (|t| - j == 3 || |t| - j == 4)
    && forall k :: j < k < |t| ==> IsWordChar(t[k])
  }

  /** What `(\.\w{2,3})+` leaves: a chain that starts with '.' and ends with a '.' followed
      by two or three word characters. */
  ghost predicate LabelsShape(t: string) {
    && Chain(t) && t != [] && t[0] == '.'
    && exists j :: LastLabelAt(t, j)
  }

  lemma LabelIsShaped(l: string)
    requires Label(l)
    ensures Chain(l) && LastLabelAt(l, 0)
  {
    assert forall i :: 1 <= i < |l| ==> l[i] == l[1..][i - 1];
  }

  lemma LastLabelShifts(l: string, u: string, j: int)
    requires LastLabelAt(u, j)
    ensures LastLabelAt(l + u, |l| + j)
  {
    var t := l + u;
    assert forall i :: |l| + j < i < |t| ==> t[i] == u[i - |l|];
  }

  lemma {:induction false} LabelsHaveShape(t: string)
    requires Labels(t)
    ensures LabelsShape(t)
    decreases |t|
  {
    var k :| 0 < k <= |t| && Label(t[..k]) && (k == |t| || Labels(t[k..]));
    var l, u := t[..k], t[k..];
    assert t == l + u;
    LabelIsShaped(l);
    if k == |t| {
      assert t == l;
    } else {
      LabelsHaveShape(u);
      var j :| LastLabelAt(u, j);
      ChainAppend(l, u);
      LastLabelShifts(l, u, j);
    }
  }

  lemma ChainPrefix(x: string, k: nat)
    requires Chain(x) && 0 < k <= |x| && IsWordChar(x[k - 1])
    ensures Chain(x[..k])
  {
    var y := x[..k];
    assert forall i :: 0 <= i < |y| ==> y[i] == x[i];
  }

  /** A final label's '.' is the last separator. */
  lemma LastSepIsLabel(d: string, j: int)
    requires LastLabelAt(d, j)
    ensures LastSep(d) == Some(j)
  {
    var r := LastSep(d);
    assert IsSep(d[j]);
    assert r.Some?;
    assert !(r.value > j) && !(r.value < j);
  }

  /** A name followed by a chain that ends in a last label is a domain. */
  lemma NameThenLabelsIsDomain(x: string, t: string, j: int)
    requires IsName(x) && Chain(t) && LastLabelAt(t, j)
    ensures IsDomain(x + t)
  {
    var d := x + t;
    ChainAppend(x, t);
    LastLabelShifts(x, t, j);
    LastSepIsLabel(d, |x| + j);
    assert d[0] == x[0];
  }

  lemma DomainPatternIsDomain(d: string)
    requires DomainPattern(d)
    ensures IsDomain(d)
  {
    var k :| 0 <= k <= |d| && NamePattern(d[..k]) && Labels(d[k..]);
    var x, t := d[..k], d[k..];
    assert d == x + t;
    NamePatternIffName(x);
    LabelsHaveShape(t);
    var j :| LastLabelAt(t, j);
    NameThenLabelsIsDomain(x, t, j);
  }

  lemma DomainIsDomainPattern(d: string)
    requires IsDomain(d)
    ensures DomainPattern(d)
  {
    var j := LastSep(d).value;
    assert j > 0;
    assert IsWordChar(d[j - 1]);
    var x, t := d[..j], d[j..];
    ChainPrefix(d, j);
    assert x[0] == d[0];
    NamePatternIffName(x);
    assert Label(t) by {
      assert forall i :: 0 <= i < |t| - 1 ==> t[1..][i] == d[j + 1 + i];
    }
    assert t[..|t|] == t;
    assert Labels(t);
  }

  /** `\w+([\.-]?\w+)*(\.\w{2,3})+` holds exactly of domains. */
  lemma DomainPatternIffDomain(d: string)
    ensures DomainPattern(d) <==> IsDomain(d)
  {
    if DomainPattern(d) {
      DomainPatternIsDomain(d);
    }
    if IsDomain(d) {
      DomainIsDomainPattern(d);
    }
  }

  /** A name holds no '@'. */
  lemma NameHasNoAt(x: string)
    requires IsName(x)
    ensures forall k :: 0 <= k < |x| ==> x[k] != '@'
  {
  }

  /** The '@' that follows a name is the first one. */
  lemma FirstAtAfterName(s: string, i: nat)
    requires i < |s| && s[i] == '@' && IsName(s[..i])
    ensures IndexOf(s, '@', 0) == Some(i)
  {
    NameHasNoAt(s[..i]);
    assert forall k :: 0 <= k < i ==> s[k] == s[..i][k];
    IndexOfFirst(s, '@', 0, i);
  }

  lemma PatternIsUserEmail(s: string)
    requires EmailPattern(s)
    ensures IsUserEmail(s)
  {
    var i :| 0 <= i < |s| && s[i] == '@' && NamePattern(s[..i]) && DomainPattern(s[i + 1..]);
    NamePatternIffName(s[..i]);
    DomainPatternIffDomain(s[i + 1..]);
    FirstAtAfterName(s, i);
  }

  /** The scan accepts exactly the addresses the pattern matches. */
  lemma EmailPatternIffUserEmail(s: string)
    ensures EmailPattern(s) <==> IsUserEmail(s)
  {
    if EmailPattern(s) {
      PatternIsUserEmail(s);
    }
    if IsUserEmail(s) {
      var i := IndexOf(s, '@', 0).value;
      NamePatternIffName(s[..i]);
      DomainPatternIffDomain(s[i + 1..]);
    }
  }

  /** Every accepted address holds an '@' and ends with '.' and two or three word
      characters. */
  lemma AcceptedShape(s: string)
    requires EmailPattern(s)
    ensures '@' in s
    ensures (|s| >= 4 && s[|s| - 3] == '.') || (|s| >= 5 && s[|s| - 4] == '.')
  {
    EmailPatternIffUserEmail(s);
    var i := IndexOf(s, '@', 0).value;
    var d := s[i + 1..];
    var j := LastSep(d).value;
    assert d[j] == s[i + 1 + j];
  }

  /** "a@b.com" is accepted; "a@b.c" is rejected, its last label being one character. */
  lemma Examples()
    ensures EmailPattern("a@b.com")
    ensures !EmailPattern("a@b.c")
  {
    EmailPatternIffUserEmail("a@b.com");
    EmailPatternIffUserEmail("a@b.c");
    var good := "a@b.com";
    assert IndexOf(good, '@', 0) == Some(1) by {
      assert good[0] == 'a' && good[1] == '@';
    }
    assert good[..1] == "a" && good[2..] == "b.com";
    assert LastSep("b.com") == Some(1) by {
      assert "b.com"[..4] == "b.co" && "b.co"[..3] == "b.c" && "b.c"[..2] == "b.";
    }
    var bad := "a@b.c";
    assert IndexOf(bad, '@', 0) == Some(1) by {
      assert bad[0] == 'a' && bad[1] == '@';
    }
    assert bad[2..] == "b.c";
    assert LastSep("b.c") == Some(1) by {
      assert "b.c"[..2] == "b.";
    }
  }
}
