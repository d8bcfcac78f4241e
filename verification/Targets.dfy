/** The table name a write statement names, as the operation name of a cross-connection write. */
module Targets {
  import opened Types
  import opened Classify

  function FirstToken(q: string): string {
    var s := Stripped(q);
    ToUpper(s[..IdentRun(s)])
  }

  /** Steps over `kw` when it is the leading token; the flag says whether it was. */
  function SkipKeyword(q: string, kw: string): (string, bool) {
    var s := Stripped(q);
    var n := IdentRun(s);
    if IsToken(s[..n], kw) then (s[n..], true) else (s, false)
  }

  predicate IsQuoted(s: string) {
    s != "" && (s[0] == '"' || s[0] == '`')
  }

  /** The name `q` starts with: between quotes as written, otherwise lower-cased. */
  function NameAt(q: string): string {
    var s := Stripped(q);
    if IsQuoted(s) then
      var end := Find(s[1..], [s[0]]);
      if end >= 0 then s[1..1 + end] else ""
    else ToLower(s[..RunLen(IsNameChar, s)])
  }

  method ReadName(q: string) returns (name: string)
    ensures name == NameAt(q)
  {
    var s := StripLeading(q);
    if s == "" {
      return "";
    }
    if s[0] == '"' || s[0] == '`' {
      var end := Find(s[1..], [s[0]]);
      if end >= 0 {
        return s[1..1 + end];
      }
      return "";
    }
    var n := 0;
    while n < |s| && (IsIdentChar(s[n]) || s[n] == '.')
      invariant n <= |s|
      invariant forall i | 0 <= i < n :: IsNameChar(s[i])
    {
      n := n + 1;
    }
    RunLenIs(IsNameChar, s, n);
    return ToLower(s[..n]);
  }

  /** The text where the target's name is expected, when the statement is one whose target is known. */
  function TargetText(query: string): Option<string> {
    var q := Stripped(query);
    TextAfter(FirstToken(q), q[IdentRun(q)..])
  }

  function TextAfter(verb: string, rest: string): Option<string> {
    if verb == "INSERT" || verb == "REPLACE" || verb == "MERGE" || verb == "UPSERT" then
      var (text, ok) := SkipKeyword(rest, "INTO");
      if ok then Some(text) else None
    else if verb == "DELETE" then
      var (text, ok) := SkipKeyword(rest, "FROM");
      if ok then Some(text) else None
    else if verb == "UPDATE" || verb == "COPY" then Some(rest)
    else if verb == "TRUNCATE" then Some(SkipKeyword(rest, "TABLE").0)
    else None
  }

  function WriteTarget(query: string): string {
    match TargetText(query)
    case Some(text) => NameAt(text)
    case None => ""
  }

  /** The operation name reported for a write. */
  function CrossConnOpName(query: string): string {
    if WriteTarget(query) != "" then WriteTarget(query) else "write"
  }

  /** A write is reported under its target, or as "write" when it has none. */
  lemma OpNameIsTarget(query: string)
    ensures WriteTarget(query) != "" ==> CrossConnOpName(query) == WriteTarget(query)
    ensures WriteTarget(query) == "" ==> CrossConnOpName(query) == "write"
  {
  }

  // ---------- what a target is ----------

  /** Only statements the classifier calls writes have a target. */
  lemma TargetImpliesWrite(query: string)
    requires WriteTarget(query) != ""
    ensures DefaultClassifier(query) == KindWrite
  {
    ClassifierMatchesReference(query);
    StrippedIsIdempotent(query);
  }

  predicate IsSuffix(s: string, q: string) {
    |s| <= |q| && s == q[|q| - |s|..]
  }

  lemma SuffixOfSuffix(r: string, s: string, q: string)
    requires IsSuffix(r, s) && IsSuffix(s, q)
    ensures IsSuffix(r, q)
  {
  }

  lemma StrippedDropIsSuffix(q: string, n: nat)
    requires n <= |Stripped(q)|
    ensures IsSuffix(Stripped(q)[n..], q)
  {
    StrippedIsSuffix(q);
    SuffixOfSuffix(Stripped(q)[n..], Stripped(q), q);
  }

  /** `t` occurs in `q`: as written when `verbatim`, else lower-cased. */
  predicate IsPiece(t: string, q: string, verbatim: bool) {
    exists i | 0 <= i <= |q| :: PieceAt(t, q, i, verbatim)
  }

  predicate PieceAt(t: string, q: string, i: int, verbatim: bool) {
    0 <= i <= |q| - |t| && t == if verbatim then q[i..i + |t|] else ToLower(q[i..i + |t|])
  }

  lemma PieceOfSuffix(t: string, s: string, q: string, verbatim: bool)
    requires IsPiece(t, s, verbatim) && IsSuffix(s, q)
    ensures IsPiece(t, q, verbatim)
  {
    var i :| 0 <= i <= |s| && PieceAt(t, s, i, verbatim);
    var j := |q| - |s| + i;
    assert q[j..j + |t|] == s[i..i + |t|];
    assert PieceAt(t, q, j, verbatim);
  }

  lemma NameIsPieceOfStripped(s: string, name: string)
    requires s == Stripped(s) && name == NameAt(s)
    ensures IsPiece(name, s, IsQuoted(s))
  {
    if IsQuoted(s) && name != "" {
      assert name == s[1..1 + |name|];
      assert PieceAt(name, s, 1, true);
    } else if IsQuoted(s) {
      assert s[0..0] == name;
      assert PieceAt(name, s, 0, true);
    } else {
      assert name == ToLower(s[0..|name|]);
      assert PieceAt(name, s, 0, false);
    }
  }

  lemma NameIsPiece(text: string)
    ensures IsPiece(NameAt(text), text, IsQuoted(Stripped(text)))
  {
    var s := Stripped(text);
    StrippedIsIdempotent(text);
    NameIsPieceOfStripped(s, NameAt(text));
    StrippedIsSuffix(text);
    PieceOfSuffix(NameAt(text), s, text, IsQuoted(s));
  }

  lemma SkipKeywordIsSuffix(rest: string, kw: string)
    ensures IsSuffix(SkipKeyword(rest, kw).0, rest)
  {
    StrippedDropIsSuffix(rest, IdentRun(Stripped(rest)));
    StrippedIsSuffix(rest);
  }

  lemma TextAfterIsSuffix(verb: string, rest: string)
    requires TextAfter(verb, rest).Some?
    ensures IsSuffix(TextAfter(verb, rest).value, rest)
  {
    SkipKeywordIsSuffix(rest, "INTO");
    SkipKeywordIsSuffix(rest, "FROM");
    SkipKeywordIsSuffix(rest, "TABLE");
  }

  /** Whether the target of a statement stands between quotes. */
  predicate TargetIsQuoted(query: string) {
    TargetText(query).Some? && IsQuoted(Stripped(TargetText(query).value))
  }

  /** A target is a contiguous piece of the statement, exactly as written when it is quoted and lower-cased
      when it is not, so never longer than the statement. */
  lemma TargetIsPieceOfQuery(query: string)
    ensures IsPiece(WriteTarget(query), query, TargetIsQuoted(query))
    ensures |WriteTarget(query)| <= |query|
  {
    if TargetText(query).Some? {
      var q := Stripped(query);
      var text := TargetText(query).value;
      TextAfterIsSuffix(FirstToken(q), q[IdentRun(q)..]);
      StrippedDropIsSuffix(query, IdentRun(q));
      SuffixOfSuffix(text, q[IdentRun(q)..], query);
      NameIsPiece(text);
      PieceOfSuffix(WriteTarget(query), text, query, TargetIsQuoted(query));
    } else {
      assert PieceAt("", query, 0, false);
    }
  }

  // ---------- blanks in front change nothing ----------

  lemma LeadingBlanksAreInvisible(parts: seq<string>, query: string)
    requires AllBlank(parts)
    ensures DefaultClassifier(Concat(parts) + query) == DefaultClassifier(query)
    ensures WriteTarget(Concat(parts) + query) == WriteTarget(query)
  {
    BlanksAreSkipped(parts, query);
  }

  /** The three characters slash, star, slash are skipped as a comment of their own: a statement behind them
      is classified as if they were not there, although in SQL they leave a comment open. */
  lemma SlashStarSlashIsSkipped(query: string)
    ensures DefaultClassifier("/*/" + query) == DefaultClassifier(query)
    ensures WriteTarget("/*/" + query) == WriteTarget(query)
  {
    var p := "/*/";
    FindIsFirst(p, "*/");
    assert p[1..3] == "*/" && At(p, "*/", 1);
    assert p[0..2] == "/*" && !At(p, "*/", 0);
    assert IsBlank(p);
    assert Concat([p][1..]) == "" && Concat([p]) == p;
    LeadingBlanksAreInvisible([p], query);
  }

  // ---------- letter case changes nothing ----------

  /** `a` and `b` differ at most in the case of their ASCII letters. */
  predicate SameLetters(a: string, b: string) {
    ToUpper(a) == ToUpper(b)
  }

  lemma SameLettersPointwise(a: string, b: string)
    ensures SameLetters(a, b) <==> |a| == |b| && forall i | 0 <= i < |a| :: Upper(a[i]) == Upper(b[i])
  {
    if SameLetters(a, b) {
      assert |ToUpper(a)| == |ToUpper(b)|;
      forall i | 0 <= i < |a| ensures Upper(a[i]) == Upper(b[i]) {
        assert ToUpper(a)[i] == ToUpper(b)[i];
      }
    }
  }

  lemma SlicesKeepLetters(a: string, b: string, i: nat, j: nat)
    requires SameLetters(a, b) && i <= j <= |a|
    ensures |a| == |b| && SameLetters(a[i..j], b[i..j]) && SameLetters(a[i..], b[i..])
  {
    SameLettersPointwise(a, b);
    SameLettersPointwise(a[i..j], b[i..j]);
    SameLettersPointwise(a[i..], b[i..]);
  }

  lemma FindIgnoresCase(a: string, b: string, pat: string)
    requires SameLetters(a, b)
    requires forall c | c in pat :: !('A' <= c <= 'Z' || 'a' <= c <= 'z')
    ensures Find(a, pat) == Find(b, pat)
  {
    SameLettersPointwise(a, b);
    FindIsFirst(a, pat);
    FindIsFirst(b, pat);
    forall i ensures At(a, pat, i) <==> At(b, pat, i) {
      if 0 <= i <= |a| - |pat| {
        forall j | 0 <= j < |pat| ensures a[i + j] == pat[j] <==> b[i + j] == pat[j] {
          assert Upper(a[i + j]) == Upper(b[i + j]) && pat[j] in pat;
        }
        assert a[i..i + |pat|] == pat <==> forall j | 0 <= j < |pat| :: a[i + j] == pat[j];
        assert b[i..i + |pat|] == pat <==> forall j | 0 <= j < |pat| :: b[i + j] == pat[j];
      }
    }
  }

  lemma BlankLenIgnoresCase(a: string, b: string)
    requires SameLetters(a, b)
    ensures BlankLen(a) == BlankLen(b)
  {
    SameLettersPointwise(a, b);
    FindIgnoresCase(a, b, "\n");
    FindIgnoresCase(a, b, "*/");
    if |a| > 1 {
      assert Upper(a[0]) == Upper(b[0]) && Upper(a[1]) == Upper(b[1]);
    }
  }

  lemma {:induction false} StrippedKeepsLetters(a: string, b: string)
    requires SameLetters(a, b)
    ensures SameLetters(Stripped(a), Stripped(b))
    decreases |a|
  {
    BlankLenIgnoresCase(a, b);
    SameLettersPointwise(a, b);
    var n := BlankLen(a);
    if n > 0 {
      SlicesKeepLetters(a, b, n, |a|);
      StrippedKeepsLetters(a[n..], b[n..]);
    }
  }

  lemma RunsIgnoreCase(a: string, b: string)
    requires SameLetters(a, b)
    ensures IdentRun(a) == IdentRun(b)
    ensures RunLen(IsNameChar, a) == RunLen(IsNameChar, b)
  {
    SameLettersPointwise(a, b);
    RunLenIsRun(IsIdentChar, a);
    RunLenIsRun(IsNameChar, a);
    forall i | 0 <= i < |a|
      ensures (IsIdentChar(a[i]) <==> IsIdentChar(b[i])) && (IsNameChar(a[i]) <==> IsNameChar(b[i])) {
      assert Upper(a[i]) == Upper(b[i]);
    }
    RunLenIs(IsIdentChar, b, IdentRun(a));
    RunLenIs(IsNameChar, b, RunLen(IsNameChar, a));
  }

  lemma CteKeywordIgnoresCase(a: string, b: string)
    requires SameLetters(a, b) && HasCteKeyword(a)
    ensures HasCteKeyword(b)
  {
    var i, j :| 0 <= i < j <= |a| && MaximalRun(a, i, j) && IsCteKeyword(ToUpper(a[i..j]));
    SameLettersPointwise(a, b);
    SlicesKeepLetters(a, b, i, j);
    forall k | 0 <= k < |a| ensures IsIdentChar(a[k]) <==> IsIdentChar(b[k]) {
      assert Upper(a[k]) == Upper(b[k]);
    }
    assert MaximalRun(b, i, j);
  }

  lemma TokenAndRest(a: string, b: string)
    requires SameLetters(a, b)
    ensures IdentRun(a) == IdentRun(b)
    ensures ToUpper(a[..IdentRun(a)]) == ToUpper(b[..IdentRun(b)])
    ensures SameLetters(a[IdentRun(a)..], b[IdentRun(b)..])
  {
    RunsIgnoreCase(a, b);
    SlicesKeepLetters(a, b, 0, IdentRun(a));
    SlicesKeepLetters(a, b, IdentRun(a), |a|);
    assert a[0..IdentRun(a)] == a[..IdentRun(a)] && b[0..IdentRun(a)] == b[..IdentRun(a)];
  }

  lemma RollbackIgnoresCase(a: string, b: string)
    requires SameLetters(a, b)
    ensures var s, t := Stripped(a), Stripped(b); ToUpper(s[..IdentRun(s)]) == ToUpper(t[..IdentRun(t)])
  {
    StrippedKeepsLetters(a, b);
    TokenAndRest(Stripped(a), Stripped(b));
  }

  lemma CteIgnoresCase(a: string, b: string)
    requires SameLetters(a, b)
    ensures HasCteKeyword(a) <==> HasCteKeyword(b)
  {
    if HasCteKeyword(a) { CteKeywordIgnoresCase(a, b); }
    if HasCteKeyword(b) { CteKeywordIgnoresCase(b, a); }
  }

  lemma LookUpIgnoresCase(tok: string, a: string, b: string)
    requires SameLetters(a, b)
    ensures LookUp(tok, a) == LookUp(tok, b)
  {
    RollbackIgnoresCase(a, b);
    CteIgnoresCase(a, b);
  }

  /** The classification ignores letter case. */
  lemma ClassifierIgnoresCase(a: string, b: string)
    requires SameLetters(a, b)
    ensures DefaultClassifier(a) == DefaultClassifier(b)
  {
    ClassifierMatchesReference(a);
    ClassifierMatchesReference(b);
    var s, t := Stripped(a), Stripped(b);
    StrippedKeepsLetters(a, b);
    TokenAndRest(s, t);
    LookUpIgnoresCase(ToUpper(s[..IdentRun(s)]), s[IdentRun(s)..], t[IdentRun(t)..]);
  }

  lemma TextAfterKeepsLetters(verb: string, a: string, b: string)
    requires SameLetters(a, b)
    ensures TextAfter(verb, a).Some? <==> TextAfter(verb, b).Some?
    ensures TextAfter(verb, a).Some? ==> SameLetters(TextAfter(verb, a).value, TextAfter(verb, b).value)
  {
    StrippedKeepsLetters(a, b);
    TokenAndRest(Stripped(a), Stripped(b));
  }

  lemma TargetTextKeepsLetters(a: string, b: string)
    requires SameLetters(a, b)
    ensures TargetText(a).Some? <==> TargetText(b).Some?
    ensures TargetText(a).Some? ==> SameLetters(TargetText(a).value, TargetText(b).value)
  {
    var s, t := Stripped(a), Stripped(b);
    StrippedKeepsLetters(a, b);
    StrippedIsIdempotent(a);
    StrippedIsIdempotent(b);
    TokenAndRest(s, t);
    TextAfterKeepsLetters(FirstToken(s), s[IdentRun(s)..], t[IdentRun(t)..]);
  }

  lemma NameIgnoresCase(a: string, b: string)
    requires SameLetters(a, b)
    ensures IsQuoted(Stripped(a)) <==> IsQuoted(Stripped(b))
    ensures SameLetters(NameAt(a), NameAt(b))
    ensures !IsQuoted(Stripped(a)) ==> NameAt(a) == NameAt(b)
  {
    var s, t := Stripped(a), Stripped(b);
    StrippedKeepsLetters(a, b);
    SameLettersPointwise(s, t);
    if s != "" { assert Upper(s[0]) == Upper(t[0]); }
    if IsQuoted(s) {
      SlicesKeepLetters(s, t, 1, |s|);
      FindIgnoresCase(s[1..], t[1..], [s[0]]);
      var end := Find(s[1..], [s[0]]);
      if end >= 0 { SlicesKeepLetters(s, t, 1, 1 + end); }
    } else {
      RunsIgnoreCase(s, t);
      forall i | 0 <= i < |s| ensures Lower(s[i]) == Lower(t[i]) {
        assert Upper(s[i]) == Upper(t[i]);
      }
    }
  }

  /** The target ignores the letter case of the statement; a quoted one keeps its own case only. */
  lemma TargetIgnoresCase(a: string, b: string)
    requires SameLetters(a, b)
    ensures SameLetters(WriteTarget(a), WriteTarget(b))
    ensures !TargetIsQuoted(a) ==> WriteTarget(a) == WriteTarget(b)
  {
    TargetTextKeepsLetters(a, b);
    if TargetText(a).Some? {
      NameIgnoresCase(TargetText(a).value, TargetText(b).value);
    }
  }

  // ---------- the target is the table named ----------

  predicate IsWord(w: string) {
    w != "" && forall c | c in w :: IsIdentChar(c)
  }

  lemma WordIsLeadingToken(w: string, rest: string)
    requires IsWord(w) && (rest == "" || !IsIdentChar(rest[0]))
    ensures Stripped(w + rest) == w + rest && IdentRun(w + rest) == |w|
  {
    assert forall i | 0 <= i < |w| :: (w + rest)[i] == w[i] && w[i] in w;
    RunLenIs(IsIdentChar, w + rest, |w|);
  }

  lemma BlanksEndWord(parts: seq<string>, text: string)
    requires AllBlank(parts) && parts != []
    ensures Concat(parts) + text != "" && !IsIdentChar((Concat(parts) + text)[0])
  {
    assert parts[0] in parts && IsBlank(parts[0]);
    assert (Concat(parts) + text)[0] == parts[0][0];
  }

  /** A word followed by blanks is read back as the leading token, and the blanks are skipped. */
  lemma WordThenBlanks(w: string, parts: seq<string>, text: string)
    requires IsWord(w) && AllBlank(parts) && parts != []
    ensures var rest := Concat(parts) + text;
            Stripped(w + rest) == w + rest && IdentRun(w + rest) == |w| && Stripped(rest) == Stripped(text)
  {
    BlanksEndWord(parts, text);
    WordIsLeadingToken(w, Concat(parts) + text);
    BlanksAreSkipped(parts, text);
  }

  lemma TargetTextAfterWord(verb: string, rest: string)
    requires Stripped(verb + rest) == verb + rest && IdentRun(verb + rest) == |verb|
    ensures TargetText(verb + rest) == TextAfter(ToUpper(verb), rest)
  {
    assert (verb + rest)[..|verb|] == verb && (verb + rest)[|verb|..] == rest;
  }

  lemma SkipWord(rest: string, kw: string, text: string)
    requires Stripped(rest) == kw + text && IdentRun(kw + text) == |kw|
    ensures SkipKeyword(rest, ToUpper(kw)) == (text, true)
  {
    assert (kw + text)[..|kw|] == kw && (kw + text)[|kw|..] == text;
  }

  lemma NameThenTail(name: string, tail: string)
    requires name != "" && forall c | c in name :: IsNameChar(c)
    requires tail == "" || !IsNameChar(tail[0])
    ensures Stripped(name + tail) == name + tail && NameAt(name + tail) == ToLower(name)
  {
    var s := name + tail;
    assert forall i | 0 <= i < |name| :: s[i] == name[i] && name[i] in name;
    assert BlankLen(s) == 0;
    RunLenIs(IsNameChar, s, |name|);
    assert s[..|name|] == name;
  }

  /** The verb and the keyword that introduces its table. */
  predicate Introduces(verb: string, kw: string) {
    || ((verb == "INSERT" || verb == "REPLACE" || verb == "MERGE" || verb == "UPSERT") && kw == "INTO")
    || (verb == "DELETE" && kw == "FROM")
    || (verb == "TRUNCATE" && kw == "TABLE")
  }

  lemma TextAfterIs(verb: string, kw: string, rest: string, text: string)
    requires Introduces(verb, kw) && SkipKeyword(rest, kw) == (text, true)
    ensures TextAfter(verb, rest) == Some(text)
  {
  }

  lemma TextAfterKeyword(verb: string, gap: seq<string>, kw: string, text: string)
    requires IsWord(verb) && AllBlank(gap) && gap != [] && Introduces(ToUpper(verb), ToUpper(kw))
    requires Stripped(kw + text) == kw + text && IdentRun(kw + text) == |kw|
    ensures TargetText(verb + (Concat(gap) + (kw + text))) == Some(text)
  {
    var rest := Concat(gap) + (kw + text);
    WordThenBlanks(verb, gap, kw + text);
    TargetTextAfterWord(verb, rest);
    SkipWord(rest, kw, text);
    TextAfterIs(ToUpper(verb), ToUpper(kw), rest, text);
  }

  /** However a statement is spaced, commented and cased, the table after `INSERT INTO`, `DELETE FROM`,
      `TRUNCATE TABLE` and the like is the target. */
  lemma TargetAfterKeyword(lead: seq<string>, verb: string, gap: seq<string>, kw: string, gap2: seq<string>,
                           name: string, tail: string)
    requires IsWord(verb) && IsWord(kw) && Introduces(ToUpper(verb), ToUpper(kw))
    requires AllBlank(lead) && AllBlank(gap) && AllBlank(gap2) && gap != [] && gap2 != []
    requires name != "" && forall c | c in name :: IsNameChar(c)
    requires tail == "" || !IsNameChar(tail[0])
    ensures WriteTarget(Concat(lead) + (verb + (Concat(gap) + (kw + (Concat(gap2) + (name + tail)))))) == ToLower(name)
  {
    TargetBehindKeyword(lead, verb, gap, kw, gap2, name + tail);
    NameThenTail(name, tail);
  }

  /** The same for `UPDATE` and `COPY`, and for `TRUNCATE` without `TABLE`. */
  lemma TargetAfterVerb(lead: seq<string>, verb: string, gap: seq<string>, name: string, tail: string)
    requires IsWord(verb) && AllBlank(lead) && AllBlank(gap) && gap != []
    requires name != "" && forall c | c in name :: IsNameChar(c)
    requires tail == "" || !IsNameChar(tail[0])
    requires || ToUpper(verb) == "UPDATE" || ToUpper(verb) == "COPY"
             || (ToUpper(verb) == "TRUNCATE" && FirstToken(name + tail) != "TABLE")
    ensures WriteTarget(Concat(lead) + (verb + (Concat(gap) + (name + tail)))) == ToLower(name)
  {
    TargetBehindVerb(lead, verb, gap, name + tail);
    NameThenTail(name, tail);
  }

  lemma NoKeywordToSkip(verb: string, rest: string)
    requires verb == "UPDATE" || verb == "COPY" || (verb == "TRUNCATE" && FirstToken(rest) != "TABLE")
    ensures TextAfter(verb, rest).Some? && NameAt(TextAfter(verb, rest).value) == NameAt(rest)
  {
    StrippedIsIdempotent(rest);
  }

  // ---------- what the leading word decides ----------

  /** However spaced and commented in front and cased, a statement is classified by its leading word: BEGIN and
      START begin, COMMIT and END commit, the eighteen writing keywords write, and any word not among the
      keywords is nothing in particular. */
  lemma KindByLeadingWord(lead: seq<string>, verb: string, rest: string)
    requires AllBlank(lead) && IsWord(verb) && (rest == "" || !IsIdentChar(rest[0]))
    ensures var u, kind := ToUpper(verb), DefaultClassifier(Concat(lead) + (verb + rest));
      && (u == "BEGIN" || u == "START" <==> kind == KindBegin)
      && (u == "COMMIT" || u == "END" <==> kind == KindCommit)
      && (kind == KindRollback <==> (u == "ROLLBACK" || u == "ABORT") && FirstToken(rest) != "TO")
      && (kind == KindWrite <== u == "INSERT" || u == "UPDATE" || u == "DELETE" || u == "MERGE" || u == "TRUNCATE"
                                || u == "REPLACE" || u == "UPSERT" || u == "COPY" || u == "IMPORT")
      && (kind == KindWrite <== u == "CREATE" || u == "ALTER" || u == "DROP" || u == "GRANT" || u == "REVOKE"
                                || u == "COMMENT" || u == "REFRESH" || u == "CALL" || u == "DO")
      && (u == "WITH" ==> kind == if HasCteKeyword(rest) then KindWrite else KindOther)
  {
    LeadingBlanksAreInvisible(lead, verb + rest);
    WordIsLeadingToken(verb, rest);
    ClassifierMatchesReference(verb + rest);
    assert (verb + rest)[..|verb|] == verb && (verb + rest)[|verb|..] == rest;
  }

  /** A statement none of whose words the classifier knows is nothing in particular. */
  lemma OtherLeadingWord(lead: seq<string>, verb: string, rest: string)
    requires AllBlank(lead) && IsWord(verb) && (rest == "" || !IsIdentChar(rest[0]))
    requires var u := ToUpper(verb);
      && u != "BEGIN" && u != "START" && u != "COMMIT" && u != "END" && u != "ROLLBACK" && u != "ABORT" && u != "WITH"
      && u != "INSERT" && u != "UPDATE" && u != "DELETE" && u != "MERGE" && u != "TRUNCATE" && u != "REPLACE"
      && u != "UPSERT" && u != "COPY" && u != "IMPORT" && u != "CREATE" && u != "ALTER" && u != "DROP" && u != "GRANT"
      && u != "REVOKE" && u != "COMMENT" && u != "REFRESH" && u != "CALL" && u != "DO"
    ensures DefaultClassifier(Concat(lead) + (verb + rest)) == KindOther
  {
    LeadingBlanksAreInvisible(lead, verb + rest);
    WordIsLeadingToken(verb, rest);
    ClassifierMatchesReference(verb + rest);
    assert (verb + rest)[..|verb|] == verb && (verb + rest)[|verb|..] == rest;
  }

  // ---------- quoted tables ----------

  predicate IsQuote(c: char) { c == '"' || c == '`' }

  lemma QuoteStartsNoBlank(text: string)
    requires text != "" && IsQuote(text[0])
    ensures Stripped(text) == text
  {
    assert BlankLen(text) == 0;
  }

  /** A quoted name is what stands between the quotes, exactly as written. */
  lemma QuotedName(quote: char, name: string, tail: string)
    requires IsQuote(quote) && forall c | c in name :: c != quote
    ensures NameAt([quote] + name + [quote] + tail) == name
  {
    var text, rest := [quote] + name + [quote] + tail, name + [quote] + tail;
    QuoteStartsNoBlank(text);
    assert text[1..] == rest;
    assert rest[|name|..|name| + 1] == [quote] && At(rest, [quote], |name|);
    forall i | 0 <= i < |name| ensures !At(rest, [quote], i) {
      assert name[i] in name && rest[i..i + 1] == [name[i]];
    }
    FindIs(rest, [quote], |name|);
    assert text[1..1 + |name|] == name;
  }

  /** A quote that never closes leaves no name. */
  lemma UnclosedName(quote: char, rest: string)
    requires IsQuote(quote) && forall c | c in rest :: c != quote
    ensures NameAt([quote] + rest) == ""
  {
    var text := [quote] + rest;
    QuoteStartsNoBlank(text);
    assert text[1..] == rest;
    forall i ensures !At(rest, [quote], i) {
      assert 0 <= i < |rest| ==> rest[i..i + 1] == [rest[i]] && rest[i] in rest;
    }
    FindIsFirst(rest, [quote]);
  }

  /** Behind verb, keyword and blanks, the name that starts there is the target, whatever it looks like. */
  lemma TargetBehindKeyword(lead: seq<string>, verb: string, gap: seq<string>, kw: string, gap2: seq<string>,
      text: string)
    requires IsWord(verb) && IsWord(kw) && Introduces(ToUpper(verb), ToUpper(kw))
    requires AllBlank(lead) && AllBlank(gap) && AllBlank(gap2) && gap != [] && gap2 != []
    ensures WriteTarget(Concat(lead) + (verb + (Concat(gap) + (kw + (Concat(gap2) + text))))) == NameAt(text)
  {
    var rest := Concat(gap2) + text;
    LeadingBlanksAreInvisible(lead, verb + (Concat(gap) + (kw + rest)));
    WordThenBlanks(kw, gap2, text);
    TextAfterKeyword(verb, gap, kw, rest);
    NameBehindBlanks(gap2, text);
  }

  lemma NameBehindBlanks(gap: seq<string>, text: string)
    requires AllBlank(gap)
    ensures NameAt(Concat(gap) + text) == NameAt(text)
  {
    BlanksAreSkipped(gap, text);
  }

  lemma TargetBehindVerb(lead: seq<string>, verb: string, gap: seq<string>, text: string)
    requires IsWord(verb) && AllBlank(lead) && AllBlank(gap) && gap != []
    requires || ToUpper(verb) == "UPDATE" || ToUpper(verb) == "COPY"
             || (ToUpper(verb) == "TRUNCATE" && FirstToken(text) != "TABLE")
    ensures WriteTarget(Concat(lead) + (verb + (Concat(gap) + text))) == NameAt(text)
  {
    var rest := Concat(gap) + text;
    LeadingBlanksAreInvisible(lead, verb + rest);
    WordThenBlanks(verb, gap, text);
    TargetTextAfterWord(verb, rest);
    NoKeywordToSkip(ToUpper(verb), rest);
    NameBehindBlanks(gap, text);
  }

  /** However a statement is spaced, commented and cased, a quoted table after verb and keyword is the target
      as it stands between the quotes; with the closing quote missing there is none. */
  lemma QuotedTargetAfterKeyword(lead: seq<string>, verb: string, gap: seq<string>, kw: string, gap2: seq<string>,
                                 quote: char, name: string, tail: string)
    requires IsWord(verb) && IsWord(kw) && Introduces(ToUpper(verb), ToUpper(kw))
    requires AllBlank(lead) && AllBlank(gap) && AllBlank(gap2) && gap != [] && gap2 != []
    requires IsQuote(quote) && forall c | c in name :: c != quote
    ensures WriteTarget(Concat(lead)
        + (verb + (Concat(gap) + (kw + (Concat(gap2) + ([quote] + name + [quote] + tail)))))) == name
    ensures WriteTarget(Concat(lead) + (verb + (Concat(gap) + (kw + (Concat(gap2) + ([quote] + name)))))) == ""
  {
    TargetBehindKeyword(lead, verb, gap, kw, gap2, [quote] + name + [quote] + tail);
    TargetBehindKeyword(lead, verb, gap, kw, gap2, [quote] + name);
    QuotedName(quote, name, tail);
    UnclosedName(quote, name);
  }

  /** The same for the verbs that take the table directly. */
  lemma QuotedTargetAfterVerb(lead: seq<string>, verb: string, gap: seq<string>, quote: char, name: string,
      tail: string)
    requires IsWord(verb) && AllBlank(lead) && AllBlank(gap) && gap != []
    requires ToUpper(verb) == "UPDATE" || ToUpper(verb) == "COPY" || ToUpper(verb) == "TRUNCATE"
    requires IsQuote(quote) && forall c | c in name :: c != quote
    ensures WriteTarget(Concat(lead) + (verb + (Concat(gap) + ([quote] + name + [quote] + tail)))) == name
    ensures WriteTarget(Concat(lead) + (verb + (Concat(gap) + ([quote] + name)))) == ""
  {
    QuoteIsNoToken([quote] + name + [quote] + tail);
    QuoteIsNoToken([quote] + name);
    TargetBehindVerb(lead, verb, gap, [quote] + name + [quote] + tail);
    TargetBehindVerb(lead, verb, gap, [quote] + name);
    QuotedName(quote, name, tail);
    UnclosedName(quote, name);
  }

  lemma QuoteIsNoToken(text: string)
    requires text != "" && IsQuote(text[0])
    ensures FirstToken(text) == ""
  {
    QuoteStartsNoBlank(text);
  }

  // ---------- statements without a target ----------

  /** A verb that needs its keyword has no target when another word stands in its place, and any other verb
      has none at all. */
  lemma NoTarget(lead: seq<string>, verb: string, gap: seq<string>, next: string, tail: string)
    requires IsWord(verb) && AllBlank(lead) && AllBlank(gap) && gap != []
    requires IsWord(next) && (tail == "" || !IsIdentChar(tail[0]))
    requires var u, n := ToUpper(verb), ToUpper(next);
      && u != "UPDATE" && u != "COPY" && u != "TRUNCATE"
      && (u == "INSERT" || u == "REPLACE" || u == "MERGE" || u == "UPSERT" ==> n != "INTO")
      && (u == "DELETE" ==> n != "FROM")
    ensures WriteTarget(Concat(lead) + (verb + (Concat(gap) + (next + tail)))) == ""
  {
    var rest := Concat(gap) + (next + tail);
    LeadingBlanksAreInvisible(lead, verb + rest);
    WordThenBlanks(verb, gap, next + tail);
    WordIsLeadingToken(next, tail);
    TargetTextAfterWord(verb, rest);
    NoKeywordThere(ToUpper(verb), rest, next, tail);
  }

  lemma NoKeywordThere(verb: string, rest: string, next: string, tail: string)
    requires Stripped(rest) == next + tail && IdentRun(next + tail) == |next|
    requires verb != "UPDATE" && verb != "COPY" && verb != "TRUNCATE"
    requires verb == "INSERT" || verb == "REPLACE" || verb == "MERGE" || verb == "UPSERT" ==> ToUpper(next) != "INTO"
    requires verb == "DELETE" ==> ToUpper(next) != "FROM"
    ensures TextAfter(verb, rest) == None
  {
    assert (next + tail)[..|next|] == next;
  }

  // ---------- savepoints ----------

  /** However spaced, commented and cased, a rollback or abort followed by another word ends the transaction
      unless that word is TO: rolling back to a savepoint does not. */
  lemma RollbackToIsNoEnd(lead: seq<string>, verb: string, gap: seq<string>, next: string, tail: string)
    requires IsWord(verb) && (ToUpper(verb) == "ROLLBACK" || ToUpper(verb) == "ABORT")
    requires AllBlank(lead) && AllBlank(gap) && gap != []
    requires IsWord(next) && (tail == "" || !IsIdentChar(tail[0]))
    ensures DefaultClassifier(Concat(lead) + (verb + (Concat(gap) + (next + tail)))) ==
            if ToUpper(next) == "TO" then KindOther else KindRollback
  {
    var rest := Concat(gap) + (next + tail);
    LeadingBlanksAreInvisible(lead, verb + rest);
    ClassifierMatchesReference(verb + rest);
    WordThenBlanks(verb, gap, next + tail);
    WordIsLeadingToken(next, tail);
    RollbackLooksPast(ToUpper(verb), rest, next, tail);
    assert (verb + rest)[..|verb|] == verb && (verb + rest)[|verb|..] == rest;
  }

  lemma RollbackLooksPast(tok: string, rest: string, next: string, tail: string)
    requires tok == "ROLLBACK" || tok == "ABORT"
    requires Stripped(rest) == next + tail && IdentRun(next + tail) == |next|
    ensures LookUp(tok, rest) == if ToUpper(next) == "TO" then KindOther else KindRollback
  {
    assert (next + tail)[..|next|] == next;
  }
}
