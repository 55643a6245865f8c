/** The two scanners of SQL templates: preparing a statement and binding its arguments (database.c). */
module SqlTemplate {

  /** A template is a C string. */
  ghost predicate CString(t: string) {
    forall i :: 0 <= i < |t| ==> t[i] != '\0'
  }

  /** Reading it: the terminator stands behind the last character. */
  function At(t: string, i: nat): char {
    if i < |t| then t[i] else '\0'
  }

  /** What a template is made of. Lone is a percent sign at the very end, Unknown ends the program. */
  datatype Token = Literal(c: char) | Marker(kind: char) | Percent | Lone | Unknown

  predicate IsKind(c: char) {
    c == 'p' || c == 'f' || c == 's' || c == 'd' || c == 'i' || c == 'l'
  }

  function TokenOf(c: char, next: char): Token {
    if c != '%' then Literal(c)
    else if IsKind(next) then Marker(next)
    else if next == '%' then Percent
    else if next == '\0' then Lone
    else Unknown
  }

  function TokenAt(t: string, i: nat): Token {
    TokenOf(At(t, i), At(t, i + 1))
  }

  function Width(token: Token): nat {
    if token.Marker? || token.Percent? then 2 else 1
  }

  /** From position i on there are only tokens both scanners know. */
  predicate Known(t: string, i: nat)
    decreases |t| - i
  {
    i < |t| ==> !TokenAt(t, i).Unknown? && Known(t, i + Width(TokenAt(t, i)))
  }

  function Shown(token: Token): char {
    match token
    case Literal(c) => c
    case Marker(_) => '?'
    case _ => '%'
  }

  function Kind(token: Token): string {
    if token.Marker? then [token.kind] else ""
  }

  /** The text given to SQLite for the template from position i on: one character for every token. */
  function Text(t: string, i: nat): string
    decreases |t| - i
  {
    if i >= |t| then "" else [Shown(TokenAt(t, i))] + Text(t, i + Width(TokenAt(t, i)))
  }

  /** The kinds of the markers from position i on, in order. */
  function Kinds(t: string, i: nat): string
    decreases |t| - i
  {
    if i >= |t| then "" else Kind(TokenAt(t, i)) + Kinds(t, i + Width(TokenAt(t, i)))
  }

  // The scanners.

  lemma ScanStep(t: string, i: nat)
    requires i < |t|
    ensures Width(TokenAt(t, i)) == 1 && !TokenAt(t, i).Unknown? ==> Known(t, i) == Known(t, i + 1)
    ensures Width(TokenAt(t, i)) == 2 ==> i + 2 <= |t| && Known(t, i) == Known(t, i + 2)
    ensures TokenAt(t, i).Unknown? ==> !Known(t, i)
  {
  }

  lemma TextStep(t: string, i: nat)
    requires i < |t|
    ensures Text(t, i) == [Shown(TokenAt(t, i))] + Text(t, i + Width(TokenAt(t, i)))
  {
  }

  lemma KindsStep(t: string, i: nat)
    requires i < |t|
    ensures TokenAt(t, i).Marker? ==> Kinds(t, i) == [At(t, i + 1)] + Kinds(t, i + 2)
    ensures !TokenAt(t, i).Marker? ==> Kinds(t, i) == Kinds(t, i + Width(TokenAt(t, i)))
  {
  }

  lemma NothingLeft(t: string)
    ensures Text(t, |t|) == "" && Kinds(t, |t|) == "" && Known(t, |t|)
  {
  }

  lemma Regroup(a: string, c: char, b: string)
    ensures a + ([c] + b) == a + [c] + b
  {
  }

  /** db_statement_prepare: rewrites the template inside a copy of itself. It fails exactly on an unknown
      marker, and the written text with its terminator never outgrows the copy. */
  method Prepare(t: string) returns (ok: bool, copy: array<char>, len: nat)
    requires CString(t)
    ensures ok <==> Known(t, 0)
    ensures copy.Length == |t| + 1
    ensures ok ==> len <= |t| && copy[..len] == Text(t, 0) && copy[len] == '\0'
  {
    hide Text, Known;
    NothingLeft(t);
    copy := new char[|t| + 1](j => if 0 <= j < |t| then t[j] else '\0');
    len := 0;
    var i := 0;
    while i < |t|
      invariant 0 <= len <= i <= |t|
      invariant Known(t, 0) == Known(t, i)
      invariant Text(t, 0) == copy[..len] + Text(t, i)
    {
      ScanStep(t, i);
      TextStep(t, i);
      ghost var done := copy[..len];
      var c := t[i];
      i := i + 1;
      if c == '%' {
        var n := At(t, i);
        if IsKind(n) {
          c := '?';
          i := i + 1;
        } else if n == '%' {
          i := i + 1;
        } else if n != '\0' {
          return false, copy, len;
        }
      }
      Regroup(done, c, Text(t, i));
      copy[len] := c;
      len := len + 1;
      assert copy[..len] == done + [c];
    }
    copy[len] := '\0';
    ok := true;
  }

  datatype Outcome = Bound | UnknownMarker | AssertionFailed

  /** An argument of the call, by the C type it is fetched as. */
  datatype Value = Int(i: int) | LongLong(l: int) | Double(d: real) | Str(s: string)

  datatype Binding = Binding(column: nat, kind: char, value: Value)

  ghost predicate BoundInOrder(bound: seq<Binding>, kinds: string, args: seq<Value>) {
    && |bound| == |kinds| <= |args|
    && forall k :: 0 <= k < |bound| ==> bound[k] == Binding(k + 1, kinds[k], args[k])
  }

  /** There is no "%p", for which binding is not written yet. */
  ghost predicate NoBlob(kinds: string) {
    forall k :: 0 <= k < |kinds| ==> kinds[k] != 'p'
  }

  /** The kinds seen so far, the kind at hand and those to come. */
  lemma KindsSplit(before: string, n: char, after: string)
    ensures before + ([n] + after) == before + [n] + after
    ensures n != 'p' ==> NoBlob(before + [n]) == NoBlob(before)
    ensures n == 'p' ==> !NoBlob(before + ([n] + after))
  {
    var all := before + ([n] + after);
    assert all[|before|] == n;
    assert forall k :: 0 <= k < |before| ==> (before + [n])[k] == before[k];
  }

  lemma BindNext(bound: seq<Binding>, kinds: string, args: seq<Value>, n: char)
    requires BoundInOrder(bound, kinds, args) && |kinds| < |args|
    ensures BoundInOrder(bound + [Binding(|kinds| + 1, n, args[|kinds|])], kinds + [n], args)
  {
  }

  /** db_select_parameter_callback, up to the first step of the statement: the k-th marker binds the
      k-th argument to column k. */
  method Bind(t: string, args: seq<Value>) returns (outcome: Outcome, bound: seq<Binding>)
    requires CString(t) && |Kinds(t, 0)| <= |args|
    ensures outcome == Bound <==> Known(t, 0) && NoBlob(Kinds(t, 0))
    ensures |bound| <= |Kinds(t, 0)| && BoundInOrder(bound, Kinds(t, 0)[..|bound|], args)
    ensures outcome == UnknownMarker ==> !Known(t, 0) && NoBlob(Kinds(t, 0)[..|bound|])
    ensures outcome == AssertionFailed ==>
              |bound| < |Kinds(t, 0)| && Kinds(t, 0)[|bound|] == 'p' && NoBlob(Kinds(t, 0)[..|bound|])
    ensures outcome == Bound ==> BoundInOrder(bound, Kinds(t, 0), args)
  {
    hide Kinds, Known;
    NothingLeft(t);
    var i, col := 0, 1;
    bound := [];
    ghost var kinds := "";
    while i < |t|
      invariant 0 <= i <= |t| && col == |kinds| + 1
      invariant Known(t, 0) == Known(t, i)
      invariant Kinds(t, 0) == kinds + Kinds(t, i)
      invariant NoBlob(kinds)
      invariant BoundInOrder(bound, kinds, args)
    {
      ScanStep(t, i);
      KindsStep(t, i);
      var c := t[i];
      i := i + 1;
      if c == '%' {
        var n := At(t, i);
        if IsKind(n) {
          KindsSplit(kinds, n, Kinds(t, i + 1));
          if n == 'p' {
            return AssertionFailed, bound;
          }
          BindNext(bound, kinds, args, n);
          bound := bound + [Binding(col, n, args[col - 1])];
          kinds := kinds + [n];
          col := col + 1;
          i := i + 1;
        } else if n == '%' {
          i := i + 1;
        } else if n != '\0' {
          return UnknownMarker, bound;
        }
      }
    }
    assert kinds + "" == kinds;
    outcome := Bound;
  }

  /** The markers and the other uses of a percent sign, one by one. */
  lemma TwoCharacters(c: char, d: char)
    requires c != '\0' && d != '\0'
    ensures c != '%' && d != '%' ==> Known([c, d], 0) && Text([c, d], 0) == [c, d] && Kinds([c, d], 0) == []
    ensures d == 'p' || d == 'f' || d == 's' || d == 'd' || d == 'i' || d == 'l' ==>
              Known(['%', d], 0) && Text(['%', d], 0) == "?" && Kinds(['%', d], 0) == [d]
    ensures d == '%' ==> Known(['%', d], 0) && Text(['%', d], 0) == "%" && Kinds(['%', d], 0) == []
    ensures d != 'p' && d != 'f' && d != 's' && d != 'd' && d != 'i' && d != 'l' && d != '%' ==> !Known(['%', d], 0)
    ensures Known("%", 0) && Text("%", 0) == "%" && Kinds("%", 0) == []
  {
    var t := [c, d];
    if c != '%' && d != '%' {
      TextStep(t, 0);
      TextStep(t, 1);
      NothingLeft(t);
    }
  }

  // The scanners agree.

  function Count(s: string, c: char): nat {
    if s == "" then 0 else (if s[0] == c then 1 else 0) + Count(s[1..], c)
  }

  lemma CountCons(c: char, s: string, x: char)
    ensures Count([c] + s, x) == (if c == x then 1 else 0) + Count(s, x)
  {
    assert ([c] + s)[1..] == s;
  }

  /** The parameters SQLite sees are the markers the binding scan sees, plus any literal question mark. */
  lemma {:induction false} QuestionMarks(t: string, i: nat)
    requires Known(t, i) && i <= |t|
    ensures Count(Text(t, i), '?') == |Kinds(t, i)| + Count(t[i..], '?')
    decreases |t| - i
  {
    if i < |t| {
      ScanStep(t, i);
      var token := TokenAt(t, i);
      var j := i + Width(token);
      QuestionMarks(t, j);
      CountCons(Shown(token), Text(t, j), '?');
      CountToken(t, i);
    }
  }

  lemma CountToken(t: string, i: nat)
    requires i < |t| && i + Width(TokenAt(t, i)) <= |t|
    ensures Count(t[i..], '?') == Count(t[i + Width(TokenAt(t, i))..], '?') + if TokenAt(t, i) == Literal('?') then 1 else 0
  {
    assert t[i..] == [t[i]] + t[i + 1..];
    CountCons(t[i], t[i + 1..], '?');
    if Width(TokenAt(t, i)) == 2 {
      assert t[i + 1..] == [t[i + 1]] + t[i + 2..];
      CountCons(t[i + 1], t[i + 2..], '?');
    }
  }

  lemma {:induction false} CountZero(t: string, c: char)
    ensures Count(t, c) == 0 <==> c !in t
  {
    if t != "" {
      CountZero(t[1..], c);
      assert t == [t[0]] + t[1..];
    }
  }

  /** As many arguments are bound as the statement has parameters exactly when the template has no
      question mark of its own. */
  lemma ScannersAgree(t: string)
    requires Known(t, 0)
    ensures Count(Text(t, 0), '?') == |Kinds(t, 0)| <==> '?' !in t
  {
    QuestionMarks(t, 0);
    assert t[0..] == t;
    CountZero(t, '?');
  }

  /** Undoing the preparation: the k-th question mark becomes the k-th marker again. */
  function Restore(text: string, kinds: string): string {
    if text == "" then ""
    else if text[0] == '?' && kinds != "" then ['%', kinds[0]] + Restore(text[1..], kinds[1..])
    else if text[0] == '%' then "%%" + Restore(text[1..], kinds)
    else [text[0]] + Restore(text[1..], kinds)
  }

  function Spelling(token: Token): string {
    match token
    case Literal(c) => [c]
    case Marker(k) => ['%', k]
    case _ => "%%"
  }

  lemma RestoreStep(token: Token, text: string, kinds: string)
    requires token != Literal('?') && token != Literal('%')
    ensures Restore([Shown(token)] + text, Kind(token) + kinds) == Spelling(token) + Restore(text, kinds)
  {
    var whole, all := [Shown(token)] + text, Kind(token) + kinds;
    assert whole[1..] == text;
    if token.Marker? {
      assert all[1..] == kinds;
    } else {
      assert all == kinds;
    }
  }

  /** The scan from position i on meets a percent sign with nothing behind it. */
  predicate EndsLone(t: string, i: nat)
    decreases |t| - i
  {
    i < |t| && (TokenAt(t, i).Lone? || EndsLone(t, i + Width(TokenAt(t, i))))
  }

  lemma SpellingAt(t: string, i: nat)
    requires CString(t) && i < |t| && !TokenAt(t, i).Unknown?
    ensures i + Width(TokenAt(t, i)) <= |t|
    ensures TokenAt(t, i).Lone? ==> i + 1 == |t| && t[i..] == "%"
    ensures !TokenAt(t, i).Lone? ==> t[i..] == Spelling(TokenAt(t, i)) + t[i + Width(TokenAt(t, i))..]
  {
  }

  /** A template without question marks is determined by the prepared text and the order of the bound
      kinds, except that a percent sign at the very end comes back doubled. */
  lemma {:induction false} RestoreTemplate(t: string, i: nat)
    requires Known(t, i) && '?' !in t && CString(t) && i <= |t|
    ensures Restore(Text(t, i), Kinds(t, i)) == t[i..] + if EndsLone(t, i) then "%" else ""
    decreases |t| - i
  {
    if i < |t| {
      var token := TokenAt(t, i);
      var j := i + Width(token);
      SpellingAt(t, i);
      RestoreTemplate(t, j);
      TextStep(t, i);
      RestoreStep(token, Text(t, j), Kinds(t, j));
      SpellingJoins(t, i, EndsLone(t, j));
    }
  }

  lemma SpellingJoins(t: string, i: nat, lone: bool)
    requires CString(t) && i < |t| && !TokenAt(t, i).Unknown? && (TokenAt(t, i).Lone? ==> !lone)
    ensures var j := i + Width(TokenAt(t, i));
            j <= |t| && Spelling(TokenAt(t, i)) + (t[j..] + if lone then "%" else "")
                        == t[i..] + if TokenAt(t, i).Lone? || lone then "%" else ""
  {
    SpellingAt(t, i);
  }
}
