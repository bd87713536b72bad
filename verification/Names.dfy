/**
 File names in an offer (platform/filexfer/filexfer.go): sanitizeName accepts
 bare names only, and uniqueName numbers repeated ones.
 */
module Names {
  import opened Common

  /** Unicode White_Space, which strings.TrimSpace strips. */
  predicate IsSpace(c: char) {
    || '\t' <= c <= '\r' || c == ' ' || c == '\U{85}' || c == '\U{A0}' || c == '\U{1680}'
    || '\U{2000}' <= c <= '\U{200A}' || c == '\U{2028}' || c == '\U{2029}'
    || c == '\U{202F}' || c == '\U{205F}' || c == '\U{3000}'
  }

  function TrimLeft(s: string): (r: string)
    ensures |r| <= |s| && (r != [] ==> !IsSpace(r[0]))
  {
    if s != [] && IsSpace(s[0]) then TrimLeft(s[1..]) else s
  }

  function TrimRight(s: string): (r: string)
    ensures r <= s && (r != [] ==> !IsSpace(r[|r| - 1]))
  {
    if s != [] && IsSpace(s[|s| - 1]) then TrimRight(s[..|s| - 1]) else s
  }

  function TrimSpace(s: string): string { TrimRight(TrimLeft(s)) }

  predicate Rejected(c: char) {
    c in {'/', '\\', ':', '*', '?', '"', '<', '>', '|', '\0'}
  }

  predicate Clean(s: string) { forall i :: 0 <= i < |s| ==> !Rejected(s[i]) }

  /** The last element of a slash-separated path (filepath.Base). */
  function Base(s: string): string {
    if s == [] then "."
    else if s[|s| - 1] == '/' then (if |s| == 1 then "/" else Base(s[..|s| - 1]))
    else AfterSlash(s)
  }

  function AfterSlash(s: string): string {
    if s == [] || s[|s| - 1] == '/' then [] else AfterSlash(s[..|s| - 1]) + [s[|s| - 1]]
  }

  function SanitizeName(name: string): (r: Option<string>) {
    var n := TrimSpace(name);
    if n == "" || n == "." || n == ".." then None
    else if !Clean(n) then None
    else if Base(n) != n then None
    else if "~$" <= n then None
    else Some(n)
  }

  /** What an accepted name looks like. */
  predicate Safe(s: string) {
    && s != "" && s != "." && s != ".." && Clean(s) && !("~$" <= s)
    && !IsSpace(s[0]) && !IsSpace(s[|s| - 1])
  }

  lemma {:induction false} NoSlashNoChange(s: string)
    requires Clean(s)
    ensures AfterSlash(s) == s && (s != "" ==> Base(s) == s)
  {
    if s != [] {
      NoSlashNoChange(s[..|s| - 1]);
    }
  }

  lemma TrimmedIsFixed(s: string)
    requires s != "" && !IsSpace(s[0]) && !IsSpace(s[|s| - 1])
    ensures TrimSpace(s) == s
  {
  }

  lemma {:induction false} TrimRightKeepsHead(s: string)
    requires s != "" && !IsSpace(s[0])
    ensures var r := TrimRight(s); r != "" && r[0] == s[0]
  {
    if IsSpace(s[|s| - 1]) {
      TrimRightKeepsHead(s[..|s| - 1]);
    }
  }

  /** Accepted names are exactly the safe ones after trimming, and accepting again changes nothing. */
  lemma SanitizeAcceptsSafe(name: string)
    ensures SanitizeName(name).Some? <==> Safe(TrimSpace(name))
    ensures SanitizeName(name).Some? ==>
              var n := SanitizeName(name).value; n == TrimSpace(name) && Safe(n) && SanitizeName(n) == Some(n)
  {
    var l, n := TrimLeft(name), TrimSpace(name);
    if n != "" {
      TrimRightKeepsHead(l);
      if Clean(n) { NoSlashNoChange(n); }
      TrimmedIsFixed(n);
    }
  }

  /** Inside a name exactly ten characters are refused. */
  lemma CharacterAccepted(c: char)
    ensures SanitizeName(['a', c, 'b']) == Some(['a', c, 'b']) <==>
            c !in {'/', '\\', ':', '*', '?', '"', '<', '>', '|', '\0'}
  {
    var s := ['a', c, 'b'];
    TrimmedIsFixed(s);
    SanitizeAcceptsSafe(s);
    if Rejected(c) { assert Rejected(s[1]); } else { assert Clean(s); }
  }

  /** Of the control characters only NUL is rejected: any other may stand inside an accepted name. */
  lemma ControlAccepted(c: char)
    requires c < ' '
    ensures SanitizeName(['a', c, 'b']) == Some(['a', c, 'b']) <==> c != '\0'
  {
    CharacterAccepted(c);
  }

  function Digit(d: nat): char
    requires d < 10
  {
    "0123456789"[d]
  }

  /** Sprintf("%d"). */
  function Decimal(n: nat): (s: string)
    ensures s != "" && forall i :: 0 <= i < |s| ==> '0' <= s[i] <= '9'
  {
    if n < 10 then [Digit(n)] else Decimal(n / 10) + [Digit(n % 10)]
  }

  function DigitValue(c: char): nat { if '0' <= c <= '9' then (c as int) - ('0' as int) else 0 }

  function Value(s: string): nat {
    if s == [] then 0 else 10 * Value(s[..|s| - 1]) + DigitValue(s[|s| - 1])
  }

  lemma {:induction false} DecimalRoundTrip(n: nat)
    ensures Value(Decimal(n)) == n
  {
    assert DigitValue(Digit(n % 10)) == n % 10;
    if n < 10 {
      assert Decimal(n)[..0] == [];
    } else {
      DecimalRoundTrip(n / 10);
      var s := Decimal(n);
      assert s[..|s| - 1] == Decimal(n / 10);
    }
  }

  /** The extension: from the last dot of the last path element, or empty (filepath.Ext). */
  function Ext(s: string): (e: string)
    ensures |e| <= |s| && e == s[|s| - |e|..]
  {
    if s == [] || s[|s| - 1] == '/' then []
    else if s[|s| - 1] == '.' then "."
    else
      var e := Ext(s[..|s| - 1]);
      if e == [] then [] else e + [s[|s| - 1]]
  }

  function Stem(s: string): string { s[..|s| - |Ext(s)|] }

  /** What one more character does to the extension. */
  lemma ExtNext(front: string, c: char)
    requires c != '/'
    ensures |Ext(front + [c])| == if c == '.' then 1 else if Ext(front) == [] then 0 else |Ext(front)| + 1
  {
    assert (front + [c])[..|front|] == front;
  }

  /** A further character that is no dot moves no dot. */
  lemma DotBefore(front: string, c: char, k: nat)
    requires c != '.' && k < |front| && front[k] == '.' && '.' !in front[k + 1..]
    ensures (front + [c])[k] == '.' && '.' !in (front + [c])[k + 1..]
  {
    assert (front + [c])[k + 1..] == front[k + 1..] + [c];
  }

  /** The extension begins at the last dot, if there is one. */
  lemma {:induction false} ExtFromLastDot(s: string) returns (k: nat)
    requires '/' !in s
    ensures k <= |s| && |Ext(s)| == |s| - k
    ensures if '.' in s then k < |s| && s[k] == '.' && '.' !in s[k + 1..] else k == |s|
  {
    k := |s|;
    if s != [] {
      var front, c := s[..|s| - 1], s[|s| - 1];
      assert s == front + [c];
      k := ExtFromLastDot(front);
      ExtNext(front, c);
      if c == '.' {
        k := |front|;
      } else if '.' in front {
        DotBefore(front, c, k);
      } else {
        k := |s|;
      }
    }
  }

  function Numbered(i: nat): string { " (" + Decimal(i) + ")" }

  function Candidate(name: string, i: nat): string {
    Stem(name) + Numbered(i) + Ext(name)
  }

  /** A numbered name is the name with the number before its last dot, or at its end if it has none. */
  lemma CandidateKeepsExtension(name: string, i: nat) returns (k: nat)
    requires '/' !in name
    ensures if '.' in name then k < |name| && name[k] == '.' && '.' !in name[k + 1..] else k == |name|
    ensures Candidate(name, i) == name[..k] + (" (" + Decimal(i) + ")") + name[k..]
  {
    k := ExtFromLastDot(name);
  }

  /** Different counters give different names. */
  lemma CandidateInjective(name: string, i: nat, j: nat)
    requires Candidate(name, i) == Candidate(name, j)
    ensures i == j
  {
    var a, z := Stem(name), Ext(name);
    var p, q := Candidate(name, i), Candidate(name, j);
    assert |Numbered(i)| == |Numbered(j)|;
    assert p[|a|..|p| - |z|] == Numbered(i) && q[|a|..|q| - |z|] == Numbered(j);
    assert Numbered(i)[2..|Numbered(i)| - 1] == Decimal(i);
    assert Numbered(j)[2..|Numbered(j)| - 1] == Decimal(j);
    DecimalRoundTrip(i);
    DecimalRoundTrip(j);
  }

  /** The result uniqueName must give: the name itself if unused, else the first unused numbered candidate. */
  ghost predicate IsUniqueName(name: string, used: set<string>, r: string) {
    if name !in used then r == name
    else
      exists i :: i >= 2 && r == Candidate(name, i) && r !in used &&
                  forall j :: 2 <= j < i ==> Candidate(name, j) in used
  }

  /** The candidates numbered 2 up to but excluding i. */
  ghost function Tried(name: string, i: nat): set<string> {
    if i <= 2 then {} else Tried(name, i - 1) + {Candidate(name, i - 1)}
  }

  lemma {:induction false} NotTriedBefore(name: string, i: nat, k: nat)
    requires k <= i
    ensures Candidate(name, i) !in Tried(name, k)
  {
    if k > 2 {
      NotTriedBefore(name, i, k - 1);
      if Candidate(name, i) == Candidate(name, k - 1) {
        CandidateInjective(name, i, k - 1);
      }
    }
  }

  /** r is the first unused candidate from i on. */
  ghost predicate FirstFree(name: string, used: set<string>, i: nat, r: string) {
    exists k :: k >= i && r == Candidate(name, k) && forall j :: i <= j < k ==> Candidate(name, j) in used
  }

  lemma FreeLater(name: string, used: set<string>, i: nat, r: string)
    requires Candidate(name, i) in used && FirstFree(name, used, i + 1, r)
    ensures FirstFree(name, used, i, r)
  {
    var k :| k >= i + 1 && r == Candidate(name, k) && forall j :: i + 1 <= j < k ==> Candidate(name, j) in used;
    assert forall j :: i <= j < k ==> Candidate(name, j) in used;
  }

  lemma FreeNow(name: string, used: set<string>, i: nat)
    ensures FirstFree(name, used, i, Candidate(name, i))
  {
    assert i >= i && Candidate(name, i) == Candidate(name, i);
  }

  lemma UsesUp(name: string, used: set<string>, i: nat)
    requires i >= 2 && Tried(name, i) <= used && Candidate(name, i) in used
    ensures Tried(name, i + 1) <= used && used - Tried(name, i + 1) < used - Tried(name, i)
  {
    NotTriedBefore(name, i, i);
    assert Candidate(name, i) in used - Tried(name, i) && Candidate(name, i) !in used - Tried(name, i + 1);
  }

  /** The first unused candidate from i on; each step uses up one more element of the finite set. */
  function Search(name: string, used: set<string>, i: nat): (r: string)
    requires i >= 2 && Tried(name, i) <= used
    ensures r !in used && FirstFree(name, used, i, r)
    decreases used - Tried(name, i)
  {
    if Candidate(name, i) !in used then
      FreeNow(name, used, i);
      Candidate(name, i)
    else
      UsesUp(name, used, i);
      var r := Search(name, used, i + 1);
      FreeLater(name, used, i, r);
      r
  }

  /** uniqueName as a function. */
  function Pick(name: string, used: set<string>): (r: string)
    ensures r !in used && IsUniqueName(name, used, r)
  {
    if name !in used then name else Search(name, used, 2)
  }

  /**
   The unbounded counting loop terminates because the candidates are distinct:
   each failed one uses up another element of the finite set.
   */
  method UniqueName(name: string, used: set<string>) returns (r: string, used': set<string>)
    ensures r == Pick(name, used) && used' == used + {r}
  {
    if name !in used {
      return name, used + {name};
    }
    var i := 2;
    while true
      invariant i >= 2 && Tried(name, i) <= used
      invariant Search(name, used, i) == Search(name, used, 2)
      decreases used - Tried(name, i)
    {
      var cand := Candidate(name, i);
      if cand !in used {
        return cand, used + {cand};
      }
      UsesUp(name, used, i);
      i := i + 1;
    }
  }

  lemma CleanConcat(s: string, t: string)
    requires Clean(s) && Clean(t)
    ensures Clean(s + t)
  {
  }

  lemma NumberedClean(i: nat)
    ensures Clean(Numbered(i))
  {
    CleanConcat(" (", Decimal(i));
    CleanConcat(" (" + Decimal(i), ")");
  }

  lemma StemExtClean(name: string)
    requires Clean(name)
    ensures name == Stem(name) + Ext(name) && Clean(Stem(name)) && Clean(Ext(name))
  {
    var st, e := Stem(name), Ext(name);
    assert name == st + e;
    forall k | 0 <= k < |e| ensures !Rejected(e[k]) { assert e[k] == name[|st| + k]; }
  }

  /** A numbered candidate keeps to accepted characters. */
  lemma CandidateClean(name: string, i: nat)
    requires Clean(name)
    ensures Clean(Candidate(name, i)) && Candidate(name, i) != ""
  {
    StemExtClean(name);
    NumberedClean(i);
    CleanConcat(Stem(name), Numbered(i));
    CleanConcat(Stem(name) + Numbered(i), Ext(name));
  }

  /** The two ends of st + n + e, when st + e is a name and n a parenthesised number. */
  lemma InsertedEnds(st: string, n: string, e: string)
    requires st + e != "" && !IsSpace((st + e)[|st + e| - 1]) && !("~$" <= st + e)
    requires |n| >= 4 && n[0] == ' ' && n[|n| - 1] == ')'
    ensures var c := st + n + e;
            && |c| >= 4 && !IsSpace(c[|c| - 1])
            && (st == "" ==> c[0] == ' ')
            && (st != "" ==> c[0] == (st + e)[0] && !("~$" <= c))
  {
    var c := st + n + e;
    if e != "" {
      assert c[|c| - 1] == e[|e| - 1] == (st + e)[|st + e| - 1];
    } else {
      assert c == st + n;
    }
    if |st| >= 2 {
      assert c[0] == (st + e)[0] && c[1] == (st + e)[1];
    } else {
      assert c[|st|] == ' ';
    }
  }

  lemma NumberedShape(i: nat)
    ensures var n := Numbered(i); |n| >= 4 && n[0] == ' ' && n[|n| - 1] == ')'
  {
  }

  lemma SafeIsAccepted(s: string)
    requires Safe(s)
    ensures SanitizeName(s) == Some(s)
  {
    TrimmedIsFixed(s);
    SanitizeAcceptsSafe(s);
  }

  lemma LeadingSpaceChanges(s: string)
    requires s != "" && s[0] == ' '
    ensures SanitizeName(s) != Some(s)
  {
    SanitizeAcceptsSafe(s);
  }

  lemma InsertedSafe(st: string, n: string, e: string)
    requires Safe(st + e) && Clean(st + n + e) && |n| >= 4 && n[0] == ' ' && n[|n| - 1] == ')'
    ensures if st == "" then (st + n + e)[0] == ' ' else Safe(st + n + e)
  {
    InsertedEnds(st, n, e);
  }

  /** A candidate with a stem is safe like its name; without one it begins with a space. */
  lemma CandidateEnds(name: string, i: nat)
    requires Safe(name)
    ensures var c := Candidate(name, i); if Stem(name) == "" then c != "" && c[0] == ' ' else Safe(c)
  {
    CandidateClean(name, i);
    StemExtClean(name);
    NumberedShape(i);
    InsertedSafe(Stem(name), Numbered(i), Ext(name));
  }

  /** It is accepted again, unchanged, exactly when the stem is not empty. */
  lemma CandidateSafe(name: string, i: nat)
    requires Safe(name)
    ensures SanitizeName(Candidate(name, i)) == Some(Candidate(name, i)) <==> Stem(name) != ""
  {
    CandidateEnds(name, i);
    if Stem(name) == "" { LeadingSpaceChanges(Candidate(name, i)); } else { SafeIsAccepted(Candidate(name, i)); }
  }

  predicate Distinct(names: seq<string>) {
    forall i, j :: 0 <= i < j < |names| ==> names[i] != names[j]
  }

  function Members(names: seq<string>): set<string> { set s | s in names }

  /** The staged names for a list of accepted names, chosen left to right. */
  function Stage(names: seq<string>): (staged: seq<string>)
    ensures |staged| == |names|
  {
    if names == [] then []
    else
      var before := Stage(names[..|names| - 1]);
      before + [Pick(names[|names| - 1], Members(before))]
  }

  /** staged is right for names: pairwise distinct, clean, and each the one uniqueName must give. */
  ghost predicate WellStaged(names: seq<string>, staged: seq<string>)
    requires |staged| == |names|
  {
    && Distinct(staged)
    && (forall k :: 0 <= k < |staged| ==> Clean(staged[k]) && staged[k] != "")
    && (forall k :: 0 <= k < |staged| ==> IsUniqueName(names[k], Members(staged[..k]), staged[k]))
  }

  lemma StageOne(names: seq<string>, staged: seq<string>, name: string)
    requires |staged| == |names| && WellStaged(names, staged) && Safe(name)
    ensures WellStaged(names + [name], staged + [Pick(name, Members(staged))])
  {
    var r := Pick(name, Members(staged));
    var names', staged' := names + [name], staged + [r];
    if name in Members(staged) {
      var k: nat :| r == Candidate(name, k);
      CandidateClean(name, k);
    }
    forall k | 0 <= k < |staged'| ensures IsUniqueName(names'[k], Members(staged'[..k]), staged'[k]) {
      assert staged'[..k] == staged[..k];
      if k == |staged| { assert staged[..k] == staged; }
    }
  }

  /**
   Staging any list of accepted names gives as many names, pairwise distinct
   and free of rejected characters; a name not used so far is kept.
   */
  lemma {:induction false} StageDistinct(names: seq<string>)
    requires forall n :: n in names ==> Safe(n)
    ensures WellStaged(names, Stage(names))
  {
    if names != [] {
      var front, name := names[..|names| - 1], names[|names| - 1];
      assert name in names && forall n :: n in front ==> n in names;
      StageDistinct(front);
      StageOne(front, Stage(front), name);
      assert names == front + [name];
    }
  }
}
