/** PathMatchSpec of lusbk_handles.h: the pattern match that compares symbolic links. */
module PathMatch {
  import opened Basics

  /** The characters before the terminating NUL. */
  type CString = s: string | forall c <- s :: c != '\0'

  function At(s: CString, i: nat): (c: char)
    ensures c == '\0' <==> i >= |s|
  {
    if i < |s| then
      assert s[i] in s;
      s[i]
    else '\0'
  }

  function Upper(c: char): char { if 'a' <= c <= 'z' then (c as int - 32) as char else c }

  /** The position of the first `c`, or the length. */
  function IndexOf(s: string, c: char): (k: nat)
    ensures k <= |s| && (k < |s| ==> s[k] == c) && forall j :: 0 <= j < k ==> s[j] != c
  {
    if s == "" then 0 else if s[0] == c then 0 else 1 + IndexOf(s[1..], c)
  }

  /** A star starts a jump when `?` and a further character follow it. */
  predicate Jumps(spec: string) { |spec| > 2 && spec[0] == '*' && spec[1] == '?' }

  /** What the pattern means: `?` is any character, `*?c` skips to just behind the first `c`, any
      other `*` accepts whatever is left, and the end of the pattern accepts the rest of the file. */
  predicate Matches(file: string, spec: string) {
    if spec == "" then true
    else if Jumps(spec) then
      var k := IndexOf(file, spec[2]);
      k < |file| && Matches(file[k + 1..], spec[3..])
    else if spec[0] == '*' then true
    else file != "" && (spec[0] == '?' || Upper(file[0]) == Upper(spec[0])) && Matches(file[1..], spec[1..])
  }

  /** The inner loop: the first `c` at or after position `i`, or the end. */
  method SkipTo(file: CString, i: nat, c: char) returns (k: nat)
    requires i <= |file| && c != '\0'
    ensures k == i + IndexOf(file[i..], c) <= |file|
  {
    k := i;
    while At(file, k) != '\0' && At(file, k) != c
      invariant i <= k <= |file| && forall j :: i <= j < k ==> file[j] != c
      decreases |file| - k
    {
      k := k + 1;
    }
    First(file[i..], c, k - i);
  }

  lemma {:induction false} First(s: string, c: char, k: nat)
    requires k <= |s| && (forall j :: 0 <= j < k ==> s[j] != c) && (k < |s| ==> s[k] == c)
    ensures IndexOf(s, c) == k
  {
    if k > 0 { First(s[1..], c, k - 1); }
  }

  /** Whether the rest of the file matches the rest of the pattern. */
  predicate MatchFrom(f: CString, i: nat, s: CString, j: nat)
    requires i <= |f| && j <= |s|
  {
    Matches(f[i..], s[j..])
  }

  lemma JumpStep(f: CString, i: nat, s: CString, j: nat, c: char, k: nat, i': nat, j': nat)
    requires i <= |f| && j + 2 < |s| && s[j] == '*' && s[j + 1] == '?' && c == s[j + 2] && j' == j + 3
    requires k == i + IndexOf(f[i..], c) && i' == k + 1
    ensures if k == |f| then !MatchFrom(f, i, s, j) else MatchFrom(f, i, s, j) == MatchFrom(f, i', s, j')
  {
    assert s[j..][3..] == s[j'..];
    if k < |f| { assert f[i..][k - i + 1..] == f[i'..]; }
  }

  lemma StarStep(f: CString, i: nat, s: CString, j: nat)
    requires i <= |f| && j < |s| && s[j] == '*' && !(j + 2 < |s| && s[j + 1] == '?')
    ensures MatchFrom(f, i, s, j)
  {
    assert !Jumps(s[j..]);
  }

  lemma CharStep(f: CString, i: nat, s: CString, j: nat, i': nat, j': nat)
    requires i <= |f| && j < |s| && s[j] != '*' && i' == i + 1 && j' == j + 1
    ensures MatchFrom(f, i, s, j) <==>
            i < |f| && (s[j] == '?' || Upper(f[i]) == Upper(s[j])) && MatchFrom(f, i', s, j')
  {
    assert s[j..][1..] == s[j'..];
    if i < |f| { assert f[i..][1..] == f[i'..]; }
  }

  /** PathMatchSpec. */
  method PathMatchSpec(file: Option<CString>, spec: Option<CString>) returns (isMatch: bool)
    ensures isMatch == if file == None || spec == None then file == spec else Matches(file.value, spec.value)
  {
    if file == None || spec == None { return file == spec; }
    var f, s := file.value, spec.value;
    var iSpec: nat, iFile: nat := 0, 0;
    ghost var goal := MatchFrom(f, iFile, s, iSpec);
    assert goal == Matches(f, s) by { assert f[iFile..] == f && s[iSpec..] == s; }
    while At(s, iSpec) != '\0'
      invariant iSpec <= |s| && iFile <= |f| && MatchFrom(f, iFile, s, iSpec) == goal
      decreases |s| - iSpec
    {
      ghost var i, j := iFile, iSpec;
      if s[iSpec] == '*' {
        if At(s, iSpec + 1) == '?' && At(s, iSpec + 2) != '\0' {
          iSpec := iSpec + 2;
          var k := SkipTo(f, iFile, At(s, iSpec));
          JumpStep(f, i, s, j, s[iSpec], k, k + 1, iSpec + 1);
          if At(f, k) == '\0' { return false; }
          iSpec := iSpec + 1;
          iFile := k + 1;
        } else {
          StarStep(f, i, s, j);
          return true;
        }
      } else {
        CharStep(f, i, s, j, i + 1, j + 1);
        if At(f, iFile) == '\0' { return false; }
        if s[iSpec] != '?' && f[iFile] != s[iSpec] && Upper(s[iSpec]) != Upper(f[iFile]) { return false; }
        iFile := iFile + 1;
        iSpec := iSpec + 1;
      }
    }
    return true;
  }

  // ---------------------------------------------------------------- what a pattern matches

  predicate StarFree(spec: string) { '*' !in spec }

  /** Character by character, `?` for any, without regard to case. */
  predicate Agrees(file: string, spec: string) {
    |spec| <= |file| && forall i :: 0 <= i < |spec| ==> spec[i] == '?' || Upper(file[i]) == Upper(spec[i])
  }

  lemma {:induction false} HeadMatches(file: string, spec: string, rest: string)
    requires StarFree(spec)
    ensures Matches(file, spec + rest) <==> Agrees(file, spec) && Matches(file[|spec|..], rest)
  {
    if spec == "" {
      assert spec + rest == rest && file[0..] == file;
    } else {
      assert (spec + rest)[1..] == spec[1..] + rest && (spec + rest)[0] == spec[0] && spec[0] in spec;
      if file != "" {
        HeadMatches(file[1..], spec[1..], rest);
        AgreesStep(file, spec);
        if |spec| <= |file| { assert file[1..][|spec| - 1..] == file[|spec|..]; }
      }
    }
  }

  lemma AgreesStep(file: string, spec: string)
    requires file != "" && spec != ""
    ensures Agrees(file, spec) <==> (spec[0] == '?' || Upper(file[0]) == Upper(spec[0])) && Agrees(file[1..], spec[1..])
  {
    if Agrees(file[1..], spec[1..]) && (spec[0] == '?' || Upper(file[0]) == Upper(spec[0])) {
      forall i | 0 <= i < |spec| ensures spec[i] == '?' || Upper(file[i]) == Upper(spec[i]) {
        if i > 0 { assert spec[1..][i - 1] == spec[i] && file[1..][i - 1] == file[i]; }
      }
    }
    if Agrees(file, spec) {
      forall i | 0 <= i < |spec| - 1 ensures spec[1..][i] == '?' || Upper(file[1..][i]) == Upper(spec[1..][i]) {
        assert spec[1..][i] == spec[i + 1] && file[1..][i] == file[i + 1];
      }
    }
  }

  /** A pattern without stars matches exactly the files that begin like it; with a star that starts
      no jump behind it, likewise whatever follows; with `*?c` the rest is matched just behind the
      first `c`. */
  lemma PatternMeaning(file: string, spec: string, rest: string, c: char)
    requires StarFree(spec)
    ensures Matches(file, spec) <==> Agrees(file, spec)
    ensures rest != "" && rest[0] == '*' && !Jumps(rest) ==> (Matches(file, spec + rest) <==> Agrees(file, spec))
    ensures Matches(file, spec + ("*?" + [c] + rest)) <==>
            Agrees(file, spec) && exists k :: |spec| <= k < |file| && file[k] == c
                                              && (forall j :: |spec| <= j < k ==> file[j] != c)
                                              && Matches(file[k + 1..], rest)
  {
    HeadMatches(file, spec, "");
    assert spec + "" == spec;
    HeadMatches(file, spec, rest);
    HeadMatches(file, spec, "*?" + [c] + rest);
    if Agrees(file, spec) { JumpMeaning(file, |spec|, rest, c); }
  }

  lemma JumpMeaning(file: string, n: nat, rest: string, c: char)
    requires n <= |file|
    ensures Matches(file[n..], "*?" + [c] + rest) <==>
            exists k :: n <= k < |file| && file[k] == c && (forall j :: n <= j < k ==> file[j] != c)
                && Matches(file[k + 1..], rest)
  {
    var tail, spec := file[n..], "*?" + [c] + rest;
    assert spec[3..] == rest && spec[2] == c;
    var k := n + IndexOf(tail, c);
    assert forall j :: 0 <= j < |tail| ==> tail[j] == file[n + j];
    if k < |file| { assert tail[k - n + 1..] == file[k + 1..]; }
    forall m | n <= m < |file| && file[m] == c && (forall j :: n <= j < m ==> file[j] != c) ensures m == k {
      First(tail, c, m - n);
    }
  }

  /** A match survives every extension of the file. */
  lemma {:induction false} Extension(file: string, spec: string, more: string)
    requires Matches(file, spec)
    ensures Matches(file + more, spec)
    decreases |spec|
  {
    if spec == "" {
    } else if Jumps(spec) {
      var k := IndexOf(file, spec[2]);
      First(file + more, spec[2], k);
      assert (file + more)[k + 1..] == file[k + 1..] + more;
      Extension(file[k + 1..], spec[3..], more);
    } else if spec[0] != '*' {
      assert (file + more)[1..] == file[1..] + more;
      Extension(file[1..], spec[1..], more);
    }
  }

  // ---------------------------------------------------------------- case

  /** Two characters compare equal exactly when they are equal or the same letter in either case. */
  lemma UpperMeaning(c: char, d: char)
    ensures Upper(c) == Upper(d) <==>
            c == d || ('a' <= c <= 'z' && c as int == d as int + 32) || ('a' <= d <= 'z' && d as int == c as int + 32)
    ensures 'A' <= c <= 'Z' ==> Upper(c) == c
  {
  }
}
