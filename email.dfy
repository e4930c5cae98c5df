/** The e-mail format check shared by the endpoint (`isValidEmail`) and the form
    (`validateEmail`): an unanchored search for `\S+@\S+\.\S+`. */
module Email {
  import opened Text

  /** A shortest match of `\S+@\S+\.\S+` in `s`: the `@` at `i` with a non-space
      character before it, non-space characters strictly between `i` and the `.`
      at `j` (at least one), and a non-space character after `j`. Any longer match
      contains one of these, so these are exactly the strings the search accepts. */
  ghost predicate MatchAt(s: string, i: int, j: int) {
    0 < i && i + 1 < j && j + 1 < |s|
    && s[i] == '@' && !IsSpace(s[i - 1])
    && (forall m :: i < m < j ==> !IsSpace(s[m]))
    && s[j] == '.' && !IsSpace(s[j + 1])
  }

  /** The regular expression finds a match somewhere in `s`. */
  ghost predicate EmailMatch(s: string) {
    exists i, j :: MatchAt(s, i, j)
  }

  /** How far a left-to-right search for `\S+@\S+\.\S+` has got: nothing
      (`Blank`, after white space or at the start), a run of non-space
      characters (`Word`), `\S@` (`At`), `\S@\S+` (`Domain`), `\S@\S+\.`
      (`Dot`), or a complete match (`Found`). */
  datatype Phase = Blank | Word | At | Domain | Dot | Found

  /** One character of the search. White space breaks every partial match;
      since `@` and `.` are themselves non-space, a partial match never has to
      be abandoned on a non-space character. */
  function Step(p: Phase, c: char): Phase {
    if p == Found then Found
    else if IsSpace(c) then Blank
    else match p
      case Blank => Word
      case Word => if c == '@' then At else Word
      case At => Domain
      case Domain => if c == '.' then Dot else Domain
      case Dot => Found
      case Found => Found
  }

  /** The phase reached after reading all of `s`. */
  function Scan(s: string): Phase
    decreases |s|
  {
    if s == [] then Blank else Step(Scan(s[..|s| - 1]), s[|s| - 1])
  }

  /** `/\S+@\S+\.\S+/.test(s)`: the search reaches a complete match. */
  function IsValidEmail(s: string): bool {
    Scan(s) == Found
  }

  /** The search accepts exactly the strings in which the pattern occurs. */
  lemma IsValidEmailCorrect(s: string)
    ensures IsValidEmail(s) <==> EmailMatch(s)
  {
    ScanSound(s);
  }

  /** A usable `@` at `i`: a non-space character before it and only non-space
      characters from it to the end of `s`. */
  ghost predicate Candidate(s: string, i: int) {
    0 < i < |s| && s[i] == '@' && !IsSpace(s[i - 1])
    && forall m :: i < m < |s| ==> !IsSpace(s[m])
  }

  /** Some usable `@` is followed by at least `k` characters. */
  ghost predicate HasCandidate(s: string, k: nat) {
    exists i :: Candidate(s, i) && i + k < |s|
  }

  /** What each phase says about the text read so far. */
  ghost predicate PhaseMeans(s: string, p: Phase) {
    match p
    case Found => EmailMatch(s)
    case Blank => !EmailMatch(s) && (s == [] || IsSpace(s[|s| - 1]))
    case Word => !EmailMatch(s) && s != [] && !IsSpace(s[|s| - 1]) && !HasCandidate(s, 0)
    case At => !EmailMatch(s) && HasCandidate(s, 0) && !HasCandidate(s, 1)
    case Domain => !EmailMatch(s) && s != [] && HasCandidate(s, 1)
                   && !(s[|s| - 1] == '.' && HasCandidate(s, 2))
    case Dot => !EmailMatch(s) && s != [] && s[|s| - 1] == '.' && HasCandidate(s, 2)
  }

  /** How usable `@`s change when one character is appended. */
  lemma CandidateExtend(t: string, c: char, i: int)
    ensures Candidate(t + [c], i) <==>
              (i < |t| && Candidate(t, i) && !IsSpace(c))
              || (i == |t| && c == '@' && t != [] && !IsSpace(t[|t| - 1]))
  {
    var s := t + [c];
    assert forall m :: 0 <= m < |t| ==> s[m] == t[m];
    if Candidate(s, i) && i < |t| {
      assert !IsSpace(s[|t|]);
    }
  }

  /** How matches change when one character is appended: the only new match
      can be one whose final `\S` is the appended character. */
  lemma MatchExtend(t: string, c: char)
    ensures EmailMatch(t + [c]) <==>
              EmailMatch(t) || (!IsSpace(c) && t != [] && t[|t| - 1] == '.' && HasCandidate(t, 2))
  {
    var s := t + [c];
    assert forall m :: 0 <= m < |t| ==> s[m] == t[m];
    if EmailMatch(s) && !EmailMatch(t) {
      var i, j :| MatchAt(s, i, j);
      if j + 1 < |t| {
        assert MatchAt(t, i, j);
        assert false;
      }
      assert Candidate(t, i);
    }
    if EmailMatch(t) {
      var i, j :| MatchAt(t, i, j);
      assert MatchAt(s, i, j);
    }
    if !IsSpace(c) && t != [] && t[|t| - 1] == '.' && HasCandidate(t, 2) {
      var i :| Candidate(t, i) && i + 2 < |t|;
      assert MatchAt(s, i, |t| - 1);
    }
  }

  /** Every phase of the search means what `PhaseMeans` says. */
  lemma {:induction false} ScanSound(s: string)
    ensures PhaseMeans(s, Scan(s))
    decreases |s|
  {
    if s != [] {
      var t, c := s[..|s| - 1], s[|s| - 1];
      assert s == t + [c];
      ScanSound(t);
      MatchExtend(t, c);
      forall i { CandidateExtend(t, c, i); }
      var p := Scan(t);
      if p == Word && c == '@' {
        assert Candidate(s, |t|);
      } else if p == At && !IsSpace(c) {
        var i :| Candidate(t, i) && i < |t|;
        assert Candidate(s, i);
      } else if p == Domain && !IsSpace(c) {
        var i :| Candidate(t, i) && i + 1 < |t|;
        assert Candidate(s, i);
      }
    }
  }

  /** A match inside the slice `s[a..b]` is a match of `s`, shifted by `a`,
      that lies wholly inside the slice. */
  lemma SliceMatch(s: string, a: int, b: int, i: int, j: int)
    requires 0 <= a <= b <= |s|
    ensures MatchAt(s[a..b], i, j) <==> MatchAt(s, i + a, j + a) && 0 < i && j + 1 < b - a
  {
  }

  /** A match never touches the white space that `trim` removes. */
  lemma MatchInsideTrim(s: string, i: int, j: int)
    requires MatchAt(s, i, j)
    ensures TrimOffset(s) <= i - 1 && j + 1 < TrimOffset(s) + |Trim(s)|
  {
    TrimSlice(s);
    assert !IsSpace(s[i - 1]) && !IsSpace(s[j + 1]);
  }

  /** Every character of a match is non-space, so leading and trailing white
      space never changes the verdict: the endpoint, which tests the trimmed
      address, agrees with the form, which tests it as typed. */
  lemma EmailMatchTrim(s: string)
    ensures EmailMatch(Trim(s)) <==> EmailMatch(s)
  {
    var r, a := Trim(s), TrimOffset(s);
    var b := a + |r|;
    TrimSlice(s);
    if EmailMatch(s) {
      var i, j :| MatchAt(s, i, j);
      MatchInsideTrim(s, i, j);
      SliceMatch(s, a, b, i - a, j - a);
      assert MatchAt(r, i - a, j - a);
    }
    if EmailMatch(r) {
      var i, j :| MatchAt(r, i, j);
      SliceMatch(s, a, b, i, j);
      assert MatchAt(s, i + a, j + a);
    }
  }

  /** The scanner's verdict is the same on `s` and on `s.trim()`. */
  lemma IsValidEmailTrim(s: string)
    ensures IsValidEmail(Trim(s)) == IsValidEmail(s)
  {
    IsValidEmailCorrect(s);
    IsValidEmailCorrect(Trim(s));
    EmailMatchTrim(s);
  }

  /** A string the search accepts is at least five characters long and has a
      non-space character, so it is never empty, before or after trimming. */
  lemma ValidEmailNonEmpty(s: string)
    requires IsValidEmail(s)
    ensures |s| >= 5 && Trim(s) != ""
  {
    IsValidEmailCorrect(s);
    var i, j :| MatchAt(s, i, j);
    TrimEmptyIffBlank(s);
    assert !IsSpace(s[i]);
  }
}
