/** The statement classifier and the table-name extractor. The scanning loops are methods, each proved
    against the function that says what it finds; the dispatch on keywords is a function over those. */
module Classify {
  import opened Types

  // ---------- characters ----------

  predicate IsSpace(c: char) { c == ' ' || c == '\t' || c == '\r' || c == '\n' }

  predicate IsIdentChar(c: char) { 'a' <= c <= 'z' || 'A' <= c <= 'Z' || '0' <= c <= '9' || c == '_' }

  predicate IsNameChar(c: char) { IsIdentChar(c) || c == '.' }

  function Upper(c: char): char {
    if 'a' <= c <= 'z' then (c as int - 32) as char else c
  }

  function Lower(c: char): char {
    if 'A' <= c <= 'Z' then (c as int + 32) as char else c
  }

  /** The byte with bit 0x20 set. */
  function SetBit5(c: char): char {
    if c < 128 as char && (c as int / 32) % 2 == 0 then (c as int + 32) as char else c
  }

  function ToUpper(s: string): (u: string) {
    seq(|s|, i requires 0 <= i < |s| => Upper(s[i]))
  }

  function ToLower(s: string): (u: string) {
    seq(|s|, i requires 0 <= i < |s| => Lower(s[i]))
  }

  /** The characters the scanners tell apart: blanks are the space, the tab and the two line ends;
      identifiers are made of ASCII letters, digits and the underscore, names of those and the dot. */
  lemma Characters(c: char)
    ensures IsSpace(c) <==> c in " \t\r\n"
    ensures IsIdentChar(c) <==>
            c in "abcdefghijklmnopqrstuvwxyz" || c in "ABCDEFGHIJKLMNOPQRSTUVWXYZ" || c in "0123456789" || c in "_"
    ensures IsNameChar(c) <==> IsIdentChar(c) || c in "."
  {
    SmallLetters(c);
    CapitalLetters(c);
    assert c in "0123456789" <==> '0' <= c <= '9';
  }

  /** Lower- and upper-casing exchange the two ranges of letters and leave every other character alone. */
  lemma SmallLetters(c: char)
    ensures c in "abcdefghijklmnopqrstuvwxyz" <==> 'a' <= c <= 'z'
    ensures 'a' <= c <= 'z' ==> 'A' <= Upper(c) <= 'Z' && Lower(Upper(c)) == c
    ensures !('a' <= c <= 'z') ==> Upper(c) == c
  {
  }

  lemma CapitalLetters(c: char)
    ensures c in "ABCDEFGHIJKLMNOPQRSTUVWXYZ" <==> 'A' <= c <= 'Z'
    ensures 'A' <= c <= 'Z' ==> 'a' <= Lower(c) <= 'z' && Upper(Lower(c)) == c
    ensures !('A' <= c <= 'Z') ==> Lower(c) == c
  {
  }

  // ---------- runs and searches ----------

  /** The length of the longest prefix of `q` whose characters all satisfy `p`. */
  function RunLen(p: char -> bool, q: string): (n: nat)
    ensures n <= |q|
  {
    if q == "" || !p(q[0]) then 0 else 1 + RunLen(p, q[1..])
  }

  predicate IsRun(p: char -> bool, q: string, n: nat) {
    n <= |q| && (forall i | 0 <= i < n :: p(q[i])) && (n < |q| ==> !p(q[n]))
  }

  lemma {:induction false} RunLenIsRun(p: char -> bool, q: string)
    ensures IsRun(p, q, RunLen(p, q))
  {
    if q != "" && p(q[0]) {
      RunLenIsRun(p, q[1..]);
      var n := RunLen(p, q);
      forall i | 0 <= i < n ensures p(q[i]) {
        assert i > 0 ==> q[i] == q[1..][i - 1];
      }
    }
  }

  /** A prefix all inside that cannot be extended has only one length. */
  lemma RunLenIs(p: char -> bool, q: string, n: nat)
    requires IsRun(p, q, n)
    ensures RunLen(p, q) == n
  {
    RunLenIsRun(p, q);
  }

  function IdentRun(q: string): (n: nat)
    ensures n <= |q|
  {
    RunLen(IsIdentChar, q)
  }

  method IdentRunLen(q: string) returns (n: nat)
    ensures n == IdentRun(q)
  {
    n := 0;
    while n < |q| && IsIdentChar(q[n])
      invariant n <= |q|
      invariant forall i | 0 <= i < n :: IsIdentChar(q[i])
    {
      n := n + 1;
    }
    RunLenIs(IsIdentChar, q, n);
  }

  predicate At(q: string, pat: string, i: int) {
    0 <= i <= |q| - |pat| && q[i..i + |pat|] == pat
  }

  /** The first index of `pat` in `q`, or -1 (`strings.Index` and `strings.IndexByte`). */
  function Find(q: string, pat: string): (r: int)
    ensures -1 <= r
    ensures r >= 0 ==> r + |pat| <= |q|
  {
    if pat <= q then 0
    else if q == "" then -1
    else
      var r := Find(q[1..], pat);
      if r < 0 then -1 else r + 1
  }

  lemma {:induction false} FindIsFirst(q: string, pat: string)
    ensures Find(q, pat) == -1 || At(q, pat, Find(q, pat))
    ensures forall i :: At(q, pat, i) ==> 0 <= Find(q, pat) <= i
  {
    if !(pat <= q) && q != "" {
      FindIsFirst(q[1..], pat);
      forall i ensures At(q, pat, i) <==> i > 0 && At(q[1..], pat, i - 1) {
        NotAtStart(q, pat, i);
      }
    }
  }

  lemma NotAtStart(q: string, pat: string, i: int)
    requires !(pat <= q) && q != ""
    ensures At(q, pat, i) <==> i > 0 && At(q[1..], pat, i - 1)
  {
    if 0 < i <= |q| - |pat| {
      assert q[1..][i - 1..i - 1 + |pat|] == q[i..i + |pat|];
    }
  }

  lemma FindIs(q: string, pat: string, r: int)
    requires At(q, pat, r) && forall i | 0 <= i < r :: !At(q, pat, i)
    ensures Find(q, pat) == r
  {
    FindIsFirst(q, pat);
  }

  /** What follows a string does not move a first occurrence already inside it. */
  lemma FindInPrefix(p: string, q: string, pat: string)
    requires Find(p, pat) >= 0
    ensures Find(p + q, pat) == Find(p, pat)
  {
    FindIsFirst(p, pat);
    FindIsFirst(p + q, pat);
    var r := Find(p, pat);
    assert (p + q)[r..r + |pat|] == p[r..r + |pat|];
    assert At(p + q, pat, r);
    var s := Find(p + q, pat);
    assert (p + q)[s..s + |pat|] == p[s..s + |pat|];
    assert At(p, pat, s);
  }

  // ---------- leading blanks ----------

  // The length of the blank `q` starts with: one space character, a line comment with its newline, or a
  // block comment up to the first closing pair in the whole text. The search for that pair starts inside
  // the opening one, so the three characters slash, star, slash are already a complete comment.
  // 0 when `q` starts with no blank, -1 when it starts with a comment that never closes.
  function BlankLen(q: string): (n: int)
    ensures -1 <= n <= |q|
  {
    if q != "" && IsSpace(q[0]) then 1
    else if "--" <= q then
      var i := Find(q, "\n");
      if i < 0 then -1 else i + 1
    else if "/*" <= q then
      var i := Find(q, "*/");
      if i < 0 then -1 else i + 2
    else 0
  }

  /** `q` without leading whitespace and comments. */
  function Stripped(q: string): (r: string)
    ensures |r| <= |q|
    ensures r == "" || BlankLen(r) == 0
    decreases |q|
  {
    var n := BlankLen(q);
    if n < 0 then "" else if n == 0 then q else Stripped(q[n..])
  }

  method StripLeading(query: string) returns (q: string)
    ensures q == Stripped(query)
  {
    q := query;
    while true
      invariant Stripped(q) == Stripped(query)
      decreases |q|
    {
      var i := 0;
      while i < |q| && IsSpace(q[i])
        invariant 0 <= i <= |q|
        invariant Stripped(q[i..]) == Stripped(q)
      {
        assert q[i..][1..] == q[i + 1..];
        i := i + 1;
      }
      q := q[i..];
      if "--" <= q {
        var idx := Find(q, "\n");
        if idx < 0 {
          return "";
        }
        q := q[idx + 1..];
        continue;
      }
      if "/*" <= q {
        var idx := Find(q, "*/");
        if idx < 0 {
          return "";
        }
        q := q[idx + 2..];
        continue;
      }
      return q;
    }
  }

  /** A text that is one blank and nothing more. */
  predicate IsBlank(p: string) {
    p != "" && BlankLen(p) == |p|
  }

  function Concat(parts: seq<string>): string {
    if parts == [] then "" else parts[0] + Concat(parts[1..])
  }

  predicate AllBlank(parts: seq<string>) {
    forall p | p in parts :: IsBlank(p)
  }

  /** A line comment, closed by its newline, is a blank exactly when no newline comes earlier. */
  lemma LineCommentIsBlank(body: string)
    ensures IsBlank("--" + body + "\n") <==> forall i | 0 <= i < |body| :: body[i] != '\n'
  {
    var p, n := "--" + body + "\n", |body| + 2;
    FindIsFirst(p, "\n");
    assert At(p, "\n", n);
    if IsBlank(p) {
      forall i | 0 <= i < |body| ensures body[i] != '\n' {
        assert p[i + 2..i + 3] == [body[i]] && !At(p, "\n", i + 2);
      }
    } else {
      var r := Find(p, "\n");
      assert p[r..r + 1] == "\n" && p[r] == '\n' && r < n;
      assert r >= 2 && body[r - 2] == '\n';
    }
  }

  /** A closed block comment is a blank exactly when its body does not start with a slash, which would
      close it at once, and no closing pair comes earlier. */
  lemma BlockCommentIsBlank(body: string)
    ensures IsBlank("/*" + body + "*/") <==>
      !("/" <= body) && forall i | 0 <= i < |body| :: !At(body + "*", "*/", i)
  {
    var p, n := "/*" + body + "*/", |body| + 2;
    FindIsFirst(p, "*/");
    assert At(p, "*/", n);
    forall i | 0 <= i < n
      ensures At(p, "*/", i) <==> (i == 1 && "/" <= body) || (i >= 2 && At(body + "*", "*/", i - 2))
    {
      PairInComment(body, i);
    }
    assert "/" <= body ==> At(p, "*/", 1);
    forall i | 0 <= i < |body| ensures At(p, "*/", i + 2) <==> At(body + "*", "*/", i) { }
  }

  lemma PairInComment(body: string, i: nat)
    requires i < |body| + 2
    ensures At("/*" + body + "*/", "*/", i) <==> (i == 1 && "/" <= body) || (i >= 2 && At(body + "*", "*/", i - 2))
  {
    var p, b := "/*" + body + "*/", body + "*";
    assert p[i..i + 2] == [p[i], p[i + 1]];
    if i >= 2 && i - 2 < |body| {
      assert b[i - 2..i] == [b[i - 2], b[i - 1]] && p[i] == b[i - 2] && p[i + 1] == b[i - 1];
    }
  }

  /** A blank ends where it ends, whatever follows it. */
  lemma BlankLenInPrefix(p: string, q: string)
    requires BlankLen(p) > 0
    ensures BlankLen(p + q) == BlankLen(p)
  {
    if !IsSpace(p[0]) {
      assert (p + q)[..2] == p[..2];
      FindInPrefix(p, q, if "--" <= p then "\n" else "*/");
    }
  }

  /** Any run of blanks in front of a text is invisible to every function below that strips first. */
  lemma {:induction false} BlanksAreSkipped(parts: seq<string>, q: string)
    requires AllBlank(parts)
    ensures Stripped(Concat(parts) + q) == Stripped(q)
  {
    if parts == [] {
      assert Concat(parts) + q == q;
    } else {
      var p, t := parts[0], Concat(parts[1..]) + q;
      assert p in parts && IsBlank(p);
      assert Concat(parts) + q == p + t;
      BlankLenInPrefix(p, t);
      assert (p + t)[|p|..] == t;
      BlanksAreSkipped(parts[1..], q);
    }
  }

  /** Stripping removes blanks and nothing else: every text is a run of blanks followed either by what
      stripping leaves or, when it leaves nothing, by a comment that never closes. */
  lemma {:induction false} StrippedRemovesOnlyBlanks(q: string) returns (parts: seq<string>, rest: string)
    ensures AllBlank(parts) && q == Concat(parts) + rest
    ensures rest == Stripped(q) || (Stripped(q) == "" && BlankLen(rest) == -1)
    decreases |q|
  {
    var n := BlankLen(q);
    if n <= 0 {
      parts, rest := [], q;
    } else {
      FirstBlank(q);
      var parts', rest' := StrippedRemovesOnlyBlanks(q[n..]);
      parts, rest := [q[..n]] + parts', rest';
      ConcatCons(q[..n], parts', rest');
      SplitAt(q, n);
    }
  }

  lemma SplitAt(q: string, n: nat)
    requires n <= |q|
    ensures q == q[..n] + q[n..]
  {
  }

  lemma ConcatCons(p: string, parts: seq<string>, rest: string)
    ensures Concat([p] + parts) + rest == p + (Concat(parts) + rest)
  {
    assert ([p] + parts)[1..] == parts;
  }

  lemma FirstBlank(q: string)
    requires BlankLen(q) > 0
    ensures IsBlank(q[..BlankLen(q)])
  {
    var n := BlankLen(q);
    var p := q[..n];
    if !IsSpace(q[0]) {
      var pat := if "--" <= q then "\n" else "*/";
      FindIsFirst(q, pat);
      var r := n - |pat|;
      assert p[r..r + |pat|] == q[r..r + |pat|];
      forall i | 0 <= i < r ensures !At(p, pat, i) {
        assert p[i..i + |pat|] == q[i..i + |pat|];
        assert !At(q, pat, i);
      }
      FindIs(p, pat, r);
      assert r >= 0 && p[..2] == q[..2];
    }
  }

  /** What stripping leaves starts with no blank, so stripping it again changes nothing. */
  lemma StrippedIsIdempotent(q: string)
    ensures Stripped(Stripped(q)) == Stripped(q)
  {
    assert Stripped(q) == "" ==> BlankLen(Stripped(q)) == 0;
  }

  /** What stripping leaves is the end of the text. */
  lemma {:induction false} StrippedIsSuffix(q: string)
    ensures q == q[..|q| - |Stripped(q)|] + Stripped(q)
    decreases |q|
  {
    var n := BlankLen(q);
    if n > 0 {
      StrippedIsSuffix(q[n..]);
      SplitAt(q, n);
      PrefixOfSum(q[..n], q[n..], Stripped(q));
    }
  }

  lemma PrefixOfSum(p: string, t: string, r: string)
    requires |r| <= |t| && t == t[..|t| - |r|] + r
    ensures p + t == (p + t)[..|p + t| - |r|] + r
  {
    assert (p + t)[..|p + t| - |r|] == p + t[..|t| - |r|];
  }

  // ---------- keywords ----------

  /** `tok` is the upper-case keyword `kw` in any letter case. */
  predicate IsToken(tok: string, kw: string) {
    ToUpper(tok) == kw
  }

  method TokenIs(tok: string, kw: string) returns (same: bool)
    ensures same <==> IsToken(tok, kw)
  {
    if |tok| != |kw| {
      return false;
    }
    for i := 0 to |kw|
      invariant forall j | 0 <= j < i :: Upper(tok[j]) == kw[j]
    {
      var c := tok[i];
      if 'a' <= c <= 'z' {
        c := (c as int - ('a' as int - 'A' as int)) as char;
      }
      if c != kw[i] {
        assert ToUpper(tok)[i] != kw[i];
        return false;
      }
    }
    assert ToUpper(tok) == kw;
    return true;
  }

  predicate IsWriteToken(tok: string) {
    match |tok|
    case 5 => IsToken(tok, "MERGE")
    case 6 => IsToken(tok, "INSERT") || IsToken(tok, "UPDATE") || IsToken(tok, "DELETE")
    case 7 => IsToken(tok, "REPLACE")
    case 8 => IsToken(tok, "TRUNCATE")
    case _ => false
  }

  /** `q[a..b]` is a whole identifier: no identifier character touches it on either side. */
  predicate MaximalRun(q: string, a: int, b: int) {
    && 0 <= a < b <= |q|
    && (forall i | a <= i < b :: IsIdentChar(q[i]))
    && (a > 0 ==> !IsIdentChar(q[a - 1]))
    && (b < |q| ==> !IsIdentChar(q[b]))
  }

  lemma OneRunPerEnd(q: string, a: int, c: int, b: int)
    requires MaximalRun(q, a, b) && MaximalRun(q, c, b)
    ensures a == c
  {
  }

  predicate HasWriteToken(q: string) {
    exists a, b | 0 <= a < b <= |q| :: MaximalRun(q, a, b) && IsWriteToken(q[a..b])
  }

  /** The single left-to-right pass finds a write keyword exactly when some whole identifier is one. */
  method ContainsWriteToken(q: string) returns (found: bool)
    ensures found <==> HasWriteToken(q)
  {
    var start := -1;
    var i := 0;
    while i <= |q|
      invariant 0 <= i <= |q| + 1 && -1 <= start < i
      invariant start >= 0 ==> i <= |q| && (forall j | start <= j < i :: IsIdentChar(q[j]))
      invariant start > 0 ==> !IsIdentChar(q[start - 1])
      invariant start < 0 && 0 < i <= |q| ==> !IsIdentChar(q[i - 1])
      invariant forall a, b :: MaximalRun(q, a, b) && b < i ==> !IsWriteToken(q[a..b])
    {
      if i < |q| && IsIdentChar(q[i]) {
        if start < 0 {
          start := i;
        }
        i := i + 1;
        continue;
      }
      if start >= 0 {
        assert MaximalRun(q, start, i);
        if IsWriteToken(q[start..i]) {
          return true;
        }
        forall a | MaximalRun(q, a, i) ensures a == start {
          OneRunPerEnd(q, a, start, i);
        }
        start := -1;
      }
      i := i + 1;
    }
    return false;
  }

  // ---------- classification ----------

  function RollbackKind(rest: string): StatementKind {
    var r := Stripped(rest);
    if IsToken(r[..IdentRun(r)], "TO") then KindOther else KindRollback
  }

  /** The classifier as written: one look at the first byte picks the few keywords worth comparing. */
  function DefaultClassifier(query: string): StatementKind {
    var q := Stripped(query);
    var n := IdentRun(q);
    if n == 0 then KindOther else Dispatch(SetBit5(q[0]), q[..n], q[n..])
  }

  function Dispatch(first: char, tok: string, rest: string): StatementKind {
    match first
    case 'b' => if IsToken(tok, "BEGIN") then KindBegin else KindOther
    case 's' => if IsToken(tok, "START") then KindBegin else KindOther
    case 'c' =>
      if IsToken(tok, "COMMIT") then KindCommit
      else if IsToken(tok, "CREATE") || IsToken(tok, "CALL") || IsToken(tok, "COPY") || IsToken(tok, "COMMENT")
          then KindWrite
      else KindOther
    case 'e' => if IsToken(tok, "END") then KindCommit else KindOther
    case 'r' =>
      if IsToken(tok, "ROLLBACK") then RollbackKind(rest)
      else if IsToken(tok, "REPLACE") || IsToken(tok, "REVOKE") || IsToken(tok, "REFRESH") then KindWrite
      else KindOther
    case 'a' =>
      if IsToken(tok, "ABORT") then RollbackKind(rest)
      else if IsToken(tok, "ALTER") then KindWrite
      else KindOther
    case 'i' => if IsToken(tok, "INSERT") || IsToken(tok, "IMPORT") then KindWrite else KindOther
    case 'u' => if IsToken(tok, "UPDATE") || IsToken(tok, "UPSERT") then KindWrite else KindOther
    case 'd' => if IsToken(tok, "DELETE") || IsToken(tok, "DROP") || IsToken(tok, "DO") then KindWrite else KindOther
    case 'm' => if IsToken(tok, "MERGE") then KindWrite else KindOther
    case 't' => if IsToken(tok, "TRUNCATE") then KindWrite else KindOther
    case 'g' => if IsToken(tok, "GRANT") then KindWrite else KindOther
    case 'w' => if IsToken(tok, "WITH") && HasWriteToken(rest) then KindWrite else KindOther
    case _ => KindOther
  }

  predicate IsWriteKeyword(u: string) {
    || u == "INSERT" || u == "UPDATE" || u == "DELETE" || u == "MERGE" || u == "TRUNCATE" || u == "REPLACE"
    || u == "UPSERT" || u == "COPY" || u == "IMPORT" || u == "CREATE" || u == "ALTER" || u == "DROP"
    || u == "GRANT" || u == "REVOKE" || u == "COMMENT" || u == "REFRESH" || u == "CALL" || u == "DO"
  }

  predicate IsCteKeyword(u: string) {
    || u == "INSERT" || u == "UPDATE" || u == "DELETE" || u == "MERGE" || u == "TRUNCATE" || u == "REPLACE"
  }

  predicate HasCteKeyword(rest: string) {
    exists a, b | 0 <= a < b <= |rest| :: MaximalRun(rest, a, b) && IsCteKeyword(ToUpper(rest[a..b]))
  }

  /** The plain specification: upper-case the leading keyword and look it up. */
  function ReferenceClassifier(query: string): StatementKind {
    var q := Stripped(query);
    var n := IdentRun(q);
    LookUp(ToUpper(q[..n]), q[n..])
  }

  function LookUp(tok: string, rest: string): StatementKind {
    if tok == "BEGIN" || tok == "START" then KindBegin
    else if tok == "COMMIT" || tok == "END" then KindCommit
    else if tok == "ROLLBACK" || tok == "ABORT" then
      var r := Stripped(rest);
      if ToUpper(r[..IdentRun(r)]) == "TO" then KindOther else KindRollback
    else if IsWriteKeyword(tok) then KindWrite
    else if tok == "WITH" then if HasCteKeyword(rest) then KindWrite else KindOther
    else KindOther
  }

  lemma CteScanMatchesReference(rest: string)
    ensures HasWriteToken(rest) <==> HasCteKeyword(rest)
  {
    forall a, b | MaximalRun(rest, a, b)
      ensures IsWriteToken(rest[a..b]) <==> IsCteKeyword(ToUpper(rest[a..b]))
    {
      assert |ToUpper(rest[a..b])| == b - a;
    }
  }

  /** The keywords by first letter; this is what the dispatch relies on. */
  lemma KeywordsByFirstLetter(u: string)
    requires u != ""
    ensures (|| IsWriteKeyword(u) || u == "BEGIN" || u == "START" || u == "COMMIT" || u == "END"
             || u == "ROLLBACK" || u == "ABORT" || u == "WITH") <==>
      match u[0]
      case 'A' => u == "ABORT" || u == "ALTER"
      case 'B' => u == "BEGIN"
      case 'C' => u == "COMMIT" || u == "CREATE" || u == "CALL" || u == "COPY" || u == "COMMENT"
      case 'D' => u == "DELETE" || u == "DROP" || u == "DO"
      case 'E' => u == "END"
      case 'G' => u == "GRANT"
      case 'I' => u == "INSERT" || u == "IMPORT"
      case 'M' => u == "MERGE"
      case 'R' => u == "ROLLBACK" || u == "REPLACE" || u == "REVOKE" || u == "REFRESH"
      case 'S' => u == "START"
      case 'T' => u == "TRUNCATE"
      case 'U' => u == "UPDATE" || u == "UPSERT"
      case 'W' => u == "WITH"
      case _ => false
  {
  }

  /** On an identifier character the bit trick lower-cases letters and keeps everything else apart. */
  lemma SetBit5Lowers(c: char)
    requires IsIdentChar(c)
    ensures 'A' <= Upper(c) <= 'Z' ==> SetBit5(c) == Lower(Upper(c))
    ensures !('A' <= Upper(c) <= 'Z') ==> !('a' <= SetBit5(c) <= 'z')
  {
  }

  lemma DispatchIsLookUp(first: char, tok: string, rest: string)
    requires tok != ""
    requires 'A' <= Upper(tok[0]) <= 'Z' ==> first == Lower(Upper(tok[0]))
    requires !('A' <= Upper(tok[0]) <= 'Z') ==> !('a' <= first <= 'z')
    ensures Dispatch(first, tok, rest) == LookUp(ToUpper(tok), rest)
  {
    CteScanMatchesReference(rest);
    KeywordsByFirstLetter(ToUpper(tok));
  }

  /** Dispatching on the first byte loses no keyword and admits none. */
  lemma ClassifierMatchesReference(query: string)
    ensures DefaultClassifier(query) == ReferenceClassifier(query)
  {
    var q := Stripped(query);
    var n := IdentRun(q);
    if n != 0 {
      SetBit5Lowers(q[0]);
      DispatchIsLookUp(SetBit5(q[0]), q[..n], q[n..]);
    }
  }
}
