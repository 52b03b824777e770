/**
 UTF-8 as the program's standard library reads it: section 4 of RFC 3629, with the lengths of what is malformed.

 `HeadOf` decides one sequence; `Scan` and `Lossy` are validation and lossy decoding of a whole input.
 */
module Utf8 {
  import Snapshot

  type Byte = Snapshot.Byte
  type Scalar = nat
  type Text = seq<Scalar>

  const REPLACEMENT: Scalar := 0xFFFD

  // ---- one sequence ----

  datatype Head = Char(scalar: Scalar, length: nat) | Invalid(length: nat) | Incomplete

  predicate Continuation(b: Byte) {
    0x80 <= b <= 0xBF
  }

  /** The length that the first byte announces; 0 for a byte that starts nothing. */
  function Width(b: Byte): nat {
    if b <= 0x7F then 1
    else if 0xC2 <= b <= 0xDF then 2
    else if 0xE0 <= b <= 0xEF then 3
    else if 0xF0 <= b <= 0xF4 then 4
    else 0
  }

  /** The second byte excludes overlong forms, surrogates and what is beyond the last code point. */
  predicate SecondFits(first: Byte, second: Byte) {
    if first == 0xE0 then 0xA0 <= second <= 0xBF
    else if first == 0xED then 0x80 <= second <= 0x9F
    else if first == 0xF0 then 0x90 <= second <= 0xBF
    else if first == 0xF4 then 0x80 <= second <= 0x8F
    else Continuation(second)
  }

  function Two(a: nat, b: nat): Scalar {
    a * 0x40 + b
  }

  function Three(a: nat, b: nat, c: nat): Scalar {
    a * 0x1000 + b * 0x40 + c
  }

  function Four(a: nat, b: nat, c: nat, d: nat): Scalar {
    a * 0x4_0000 + b * 0x1000 + c * 0x40 + d
  }

  function HeadOf(s: seq<Byte>): (h: Head)
    requires s != []
    ensures h.Char? ==> 1 <= h.length <= |s|
    ensures h.Invalid? ==> 1 <= h.length <= 3 && h.length < |s| + 1
    ensures h.Incomplete? ==> |s| <= 3
  {
    var width := Width(s[0]);
    if width == 0 then Invalid(1)
    else if width == 1 then Char(s[0], 1)
    else if |s| < 2 then Incomplete
    else if !SecondFits(s[0], s[1]) then Invalid(1)
    else if width == 2 then Char(Two(s[0] - 0xC0, s[1] - 0x80), 2)
    else if |s| < 3 then Incomplete
    else if !Continuation(s[2]) then Invalid(2)
    else if width == 3 then Char(Three(s[0] - 0xE0, s[1] - 0x80, s[2] - 0x80), 3)
    else if |s| < 4 then Incomplete
    else if !Continuation(s[3]) then Invalid(3)
    else Char(Four(s[0] - 0xF0, s[1] - 0x80, s[2] - 0x80, s[3] - 0x80), 4)
  }

  predicate IsScalar(c: Scalar) {
    c <= 0x10_FFFF && !(0xD800 <= c <= 0xDFFF)
  }

  /** The one form of a code point that the standard allows. */
  function Form(c: Scalar): (s: seq<Byte>)
    requires IsScalar(c)
    ensures 1 <= |s| <= 4
  {
    if c < 0x80 then [c]
    else if c < 0x800 then [0xC0 + c / 0x40, 0x80 + c % 0x40]
    else if c < 0x1_0000 then [0xE0 + c / 0x1000, 0x80 + c / 0x40 % 0x40, 0x80 + c % 0x40]
    else [0xF0 + c / 0x4_0000, 0x80 + c / 0x1000 % 0x40, 0x80 + c / 0x40 % 0x40, 0x80 + c % 0x40]
  }

  /** Every form is read back, whatever follows. */
  lemma FormIsRead(c: Scalar, rest: seq<Byte>)
    requires IsScalar(c)
    ensures HeadOf(Form(c) + rest) == Char(c, |Form(c)|)
  {
    FormWidth(c);
    FormBits(c);
    var s := Form(c) + rest;
    assert forall i :: 0 <= i < |Form(c)| ==> s[i] == Form(c)[i];
  }

  lemma FormWidth(c: Scalar)
    requires IsScalar(c)
    ensures Width(Form(c)[0]) == |Form(c)|
    ensures |Form(c)| > 1 ==> SecondFits(Form(c)[0], Form(c)[1]) && 0x80 <= Form(c)[1]
    ensures forall i :: 1 <= i < |Form(c)| ==> Continuation(Form(c)[i])
  {
  }

  lemma FormBits(c: Scalar)
    ensures Two(c / 0x40, c % 0x40) == c
    ensures Three(c / 0x1000, c / 0x40 % 0x40, c % 0x40) == c
    ensures Four(c / 0x4_0000, c / 0x1000 % 0x40, c / 0x40 % 0x40, c % 0x40) == c
  {
    Halves(c, 0x40, 0x40);
    Halves(c, 0x1000, 0x40);
  }

  lemma Halves(c: Scalar, a: nat, b: nat)
    requires (a == 0x40 || a == 0x1000) && b == 0x40
    ensures c / a / b == c / (a * b)
    ensures c / a == c / (a * b) * b + c / a % b
  {
  }

  /** Nothing but a form is read as a code point. */
  lemma ReadIsForm(s: seq<Byte>)
    requires s != [] && HeadOf(s).Char?
    ensures IsScalar(HeadOf(s).scalar) && Form(HeadOf(s).scalar) == s[..HeadOf(s).length]
  {
    match HeadOf(s).length
    case 2 => TwoBits(s[0] - 0xC0, s[1] - 0x80);
    case 3 => ThreeBits(s[0] - 0xE0, s[1] - 0x80, s[2] - 0x80);
    case 4 => FourBits(s[0] - 0xF0, s[1] - 0x80, s[2] - 0x80, s[3] - 0x80);
    case _ =>
  }

  lemma TwoBits(a: nat, b: nat)
    requires b < 0x40
    ensures Two(a, b) / 0x40 == a && Two(a, b) % 0x40 == b
  {
  }

  lemma ThreeBits(a: nat, b: nat, c: nat)
    requires b < 0x40 && c < 0x40
    ensures var n := Three(a, b, c); n / 0x1000 == a && n / 0x40 % 0x40 == b && n % 0x40 == c
  {
  }

  lemma FourBits(a: nat, b: nat, c: nat, d: nat)
    requires b < 0x40 && c < 0x40 && d < 0x40
    ensures var n := Four(a, b, c, d);
            n / 0x4_0000 == a && n / 0x1000 % 0x40 == b && n / 0x40 % 0x40 == c && n % 0x40 == d
  {
    var n := Four(a, b, c, d);
    assert n == (a * 0x1000 + b * 0x40 + c) * 0x40 + d;
    assert n / 0x40 == a * 0x1000 + b * 0x40 + c && n % 0x40 == d;
    assert n == (a * 0x40 + b) * 0x1000 + (c * 0x40 + d);
    assert n / 0x1000 == a * 0x40 + b;
  }

  // ---- a whole input ----

  /** `Open(at)`: well-formed up to `at`, and from there the beginning of a sequence. */
  datatype Verdict = Valid | Broken | Open(at: nat)

  function Shift(v: Verdict, n: nat): Verdict {
    if v.Open? then Open(v.at + n) else v
  }

  function Scan(s: seq<Byte>): (v: Verdict)
    ensures v.Open? ==> v.at < |s| <= v.at + 3
  {
    if s == [] then Valid
    else
      match HeadOf(s)
      case Char(_, n) => Shift(Scan(s[n..]), n)
      case Invalid(_) => Broken
      case Incomplete => Open(0)
  }

  /** Each malformed part, and an unfinished end, is replaced by one character. */
  function Lossy(s: seq<Byte>): Text {
    if s == [] then []
    else
      match HeadOf(s)
      case Char(c, n) => [c] + Lossy(s[n..])
      case Invalid(n) => [REPLACEMENT] + Lossy(s[n..])
      case Incomplete => [REPLACEMENT]
  }

  /** How much of `s` may be rendered now: all but an unfinished character at the end. */
  function CompletePrefix(s: seq<Byte>): (n: nat)
    ensures n <= |s| <= n + 3
  {
    match Scan(s)
    case Open(at) => at
    case _ => |s|
  }

  /** What follows does not change how a complete character is read. */
  lemma HeadKept(s: seq<Byte>, more: seq<Byte>)
    requires s != [] && !HeadOf(s).Incomplete?
    ensures HeadOf(s + more) == HeadOf(s)
  {
  }

  lemma {:induction false} ScanAppend(s: seq<Byte>, t: seq<Byte>)
    requires Scan(s).Valid?
    ensures Scan(s + t) == Shift(Scan(t), |s|)
    decreases |s|
  {
    if s == [] {
      assert s + t == t;
    } else {
      var n := HeadOf(s).length;
      HeadKept(s, t);
      assert (s + t)[n..] == s[n..] + t;
      ScanAppend(s[n..], t);
    }
  }

  lemma {:induction false} LossyAppend(s: seq<Byte>, t: seq<Byte>)
    requires Scan(s).Valid?
    ensures Lossy(s + t) == Lossy(s) + Lossy(t)
    decreases |s|
  {
    if s == [] {
      assert s + t == t;
    } else {
      var n := HeadOf(s).length;
      HeadKept(s, t);
      assert (s + t)[n..] == s[n..] + t;
      LossyAppend(s[n..], t);
    }
  }

  lemma {:induction false} ScanTake(s: seq<Byte>, k: nat)
    requires k <= |s| && !Scan(s).Broken?
    ensures !Scan(s[..k]).Broken?
    decreases |s|
  {
    if s != [] && k > 0 {
      if HeadOf(s).Char? {
        var n := HeadOf(s).length;
        if n <= k {
          HeadTake(s, k);
          assert s[..k][n..] == s[n..][..k - n];
          ScanTake(s[n..], k - n);
        } else {
          HeadCut(s, k);
        }
      } else {
        HeadCut(s, k);
      }
    }
  }

  lemma HeadTake(s: seq<Byte>, k: nat)
    requires s != [] && HeadOf(s).Char? && HeadOf(s).length <= k <= |s|
    ensures HeadOf(s[..k]) == HeadOf(s)
  {
  }

  lemma HeadCut(s: seq<Byte>, k: nat)
    requires 0 < k <= |s|
    requires HeadOf(s).Incomplete? || (HeadOf(s).Char? && k < HeadOf(s).length)
    ensures HeadOf(s[..k]).Incomplete?
  {
  }

  /** The complete prefix of what is not malformed is well-formed. */
  lemma {:induction false} CompleteIsValid(s: seq<Byte>)
    requires !Scan(s).Broken?
    ensures Scan(s[..CompletePrefix(s)]).Valid?
    decreases |s|
  {
    if s == [] || HeadOf(s).Incomplete? {
      assert s[..CompletePrefix(s)] == [];
    } else {
      var n, k := HeadOf(s).length, CompletePrefix(s);
      CompleteIsValid(s[n..]);
      assert k == n + CompletePrefix(s[n..]);
      HeadTake(s, k);
      assert s[..k][n..] == s[n..][..k - n];
    }
  }

  /** What is left of an open input begins a character. */
  lemma {:induction false} OpenTail(s: seq<Byte>)
    requires Scan(s).Open?
    ensures Scan(s[Scan(s).at..]) == Open(0) && HeadOf(s[Scan(s).at..]).Incomplete?
    decreases |s|
  {
    if HeadOf(s).Char? {
      var n := HeadOf(s).length;
      OpenTail(s[n..]);
      assert s[n..][Scan(s[n..]).at..] == s[Scan(s).at..];
    } else {
      assert s[0..] == s;
    }
  }

  /** A byte that continues nothing stands at the start of a character. */
  lemma {:induction false} StartsCharacter(s: seq<Byte>, k: nat)
    requires !Scan(s).Broken? && k < |s| && !Continuation(s[k])
    ensures Scan(s[..k]).Valid?
    decreases |s|
  {
    if k > 0 && HeadOf(s).Char? {
      var n := HeadOf(s).length;
      assert n <= k;
      StartsCharacter(s[n..], k - n);
      HeadTake(s, k);
      assert s[..k][n..] == s[n..][..k - n];
    } else {
      assert k == 0;
      assert s[..k] == [];
    }
  }

  predicate IsText(t: Text) {
    forall i :: 0 <= i < |t| ==> IsScalar(t[i])
  }

  function Forms(t: Text): seq<Byte>
    requires IsText(t)
  {
    if t == [] then [] else Form(t[0]) + Forms(t[1..])
  }

  lemma FormsMore(c: Scalar, t: Text)
    requires IsScalar(c) && IsText(t)
    ensures IsText([c] + t) && Forms([c] + t) == Form(c) + Forms(t)
  {
    assert ([c] + t)[1..] == t;
  }

  /** Well-formed bytes are the forms of one text, and lossy decoding finds it. */
  lemma {:induction false} ValidIsForms(s: seq<Byte>)
    requires Scan(s).Valid?
    ensures IsText(Lossy(s)) && Forms(Lossy(s)) == s
    decreases |s|
  {
    if s != [] {
      var n := HeadOf(s).length;
      ReadIsForm(s);
      ValidIsForms(s[n..]);
      FormsMore(HeadOf(s).scalar, Lossy(s[n..]));
      assert s[..n] + s[n..] == s;
    }
  }

  lemma {:induction false} FormsAreValid(t: Text)
    requires IsText(t)
    ensures Scan(Forms(t)).Valid? && Lossy(Forms(t)) == t
  {
    if t != [] {
      var rest := Forms(t[1..]);
      FormIsRead(t[0], rest);
      FormsAreValid(t[1..]);
      assert (Form(t[0]) + rest)[|Form(t[0])|..] == rest;
    }
  }

  // ---- malformed parts ----

  /** A form begins with `s`, and goes on. */
  ghost predicate Begins(s: seq<Byte>) {
    exists c :: IsScalar(c) && s < Form(c)
  }

  /** `s` starts with no form, and `part` is the longest start of it with which a form may begin; a single byte if there is
      none. */
  ghost predicate MaximalPart(part: seq<Byte>, s: seq<Byte>) {
    && (forall c :: IsScalar(c) ==> !(Form(c) <= s))
    && part != [] && part <= s
    && (|part| == 1 || Begins(part))
    && forall k :: |part| < k <= |s| ==> !Begins(s[..k])
  }

  /** Some byte that may come next. */
  function Filler(s: seq<Byte>): Byte {
    if |s| == 1 && s[0] == 0xE0 then 0xA0 else if |s| == 1 && s[0] == 0xF0 then 0x90 else 0x80
  }

  lemma {:induction false} IncompleteBegins(s: seq<Byte>)
    requires s != [] && HeadOf(s).Incomplete?
    ensures Begins(s)
    decreases 4 - |s|
  {
    var t := s + [Filler(s)];
    if HeadOf(t).Char? {
      ReadIsForm(t);
      assert t[..HeadOf(t).length] == t;
      assert s < Form(HeadOf(t).scalar);
    } else {
      IncompleteBegins(t);
      var c :| IsScalar(c) && t < Form(c);
      assert s < Form(c);
    }
  }

  lemma BeginsIncomplete(s: seq<Byte>)
    requires s != [] && Begins(s)
    ensures HeadOf(s).Incomplete?
  {
    var c :| IsScalar(c) && s < Form(c);
    FormIsRead(c, []);
    assert Form(c) + [] == Form(c) && Form(c)[..|s|] == s;
    HeadCut(Form(c), |s|);
  }

  lemma FormComesFirst(c: Scalar, s: seq<Byte>)
    requires IsScalar(c) && Form(c) <= s
    ensures HeadOf(s) == Char(c, |Form(c)|)
  {
    FormIsRead(c, s[|Form(c)|..]);
    assert Form(c) + s[|Form(c)|..] == s;
  }

  /** What is not read as a character is a maximal part, whether malformed or unfinished. */
  lemma HeadIsMaximal(s: seq<Byte>)
    requires s != [] && !HeadOf(s).Char?
    ensures MaximalPart(if HeadOf(s).Incomplete? then s else s[..HeadOf(s).length], s)
  {
    forall c | IsScalar(c)
      ensures !(Form(c) <= s)
    {
      if Form(c) <= s {
        FormComesFirst(c, s);
      }
    }
    if HeadOf(s).Incomplete? {
      IncompleteBegins(s);
    } else {
      var n := HeadOf(s).length;
      if n > 1 {
        IncompleteBegins(s[..n]);
      }
      forall k | n < k <= |s|
        ensures !Begins(s[..k])
      {
        if Begins(s[..k]) {
          BeginsIncomplete(s[..k]);
        }
      }
    }
  }

  /** There is only one. */
  lemma MaximalUnique(a: seq<Byte>, b: seq<Byte>, s: seq<Byte>)
    requires MaximalPart(a, s) && MaximalPart(b, s)
    ensures a == b
  {
    NoneLonger(a, b, s);
    NoneLonger(b, a, s);
    assert a == s[..|a|] && b == s[..|b|];
  }

  lemma NoneLonger(part: seq<Byte>, other: seq<Byte>, s: seq<Byte>)
    requires MaximalPart(part, s) && other <= s && (|other| == 1 || Begins(other))
    ensures |other| <= |part|
  {
    assert other == s[..|other|];
  }

  lemma NoCharacter(part: seq<Byte>, s: seq<Byte>)
    requires MaximalPart(part, s)
    ensures !HeadOf(s).Char?
  {
    if HeadOf(s).Char? {
      ReadIsForm(s);
    }
  }

  /** `parts` make up `s`. Each is the form of its character in `t`, or a maximal part shown as the replacement character. */
  ghost predicate Shown(s: seq<Byte>, parts: seq<seq<Byte>>, t: Text) {
    if parts == [] then s == [] && t == []
    else
      && t != [] && parts[0] <= s
      && ((IsScalar(t[0]) && parts[0] == Form(t[0])) || (t[0] == REPLACEMENT && MaximalPart(parts[0], s)))
      && Shown(s[|parts[0]|..], parts[1..], t[1..])
  }

  /** Lossy decoding is the one way to show the input: one replacement character for each maximal malformed part and one for
      an unfinished end. */
  lemma {:induction false} LossyShows(s: seq<Byte>) returns (parts: seq<seq<Byte>>)
    ensures Shown(s, parts, Lossy(s))
    decreases |s|
  {
    if s == [] {
      return [];
    }
    var n := if HeadOf(s).Incomplete? then |s| else HeadOf(s).length;
    assert s[|s|..] == [] && s[..|s|] == s;
    var rest := LossyShows(s[n..]);
    parts := [s[..n]] + rest;
    assert parts[1..] == rest && Lossy(s)[1..] == Lossy(s[n..]);
    if HeadOf(s).Char? {
      ReadIsForm(s);
    } else {
      HeadIsMaximal(s);
    }
  }

  lemma {:induction false} ShownIsLossy(s: seq<Byte>, parts: seq<seq<Byte>>, t: Text)
    requires Shown(s, parts, t)
    ensures t == Lossy(s)
    decreases |parts|
  {
    if parts != [] {
      var n := |parts[0]|;
      ShownIsLossy(s[n..], parts[1..], t[1..]);
      assert t == [t[0]] + t[1..] && s == parts[0] + s[n..];
      if IsScalar(t[0]) && parts[0] == Form(t[0]) {
        FormIsRead(t[0], s[n..]);
      } else {
        NoCharacter(parts[0], s);
        HeadIsMaximal(s);
        MaximalUnique(parts[0], if HeadOf(s).Incomplete? then s else s[..HeadOf(s).length], s);
      }
    }
  }

  /** What may not be rendered yet is exactly an end that begins a form, after whole forms. */
  lemma OpenExact(s: seq<Byte>, at: nat)
    ensures Scan(s) == Open(at) <==> at < |s| && AllForms(s[..at]) && Begins(s[at..])
  {
    if Scan(s) == Open(at) {
      OpenIsBegun(s);
    }
    if at < |s| && AllForms(s[..at]) && Begins(s[at..]) {
      assert s[..at] + s[at..] == s;
      BegunIsOpen(s[..at], s[at..]);
    }
  }

  ghost predicate AllForms(s: seq<Byte>) {
    exists t :: IsText(t) && Forms(t) == s
  }

  lemma OpenIsBegun(s: seq<Byte>)
    requires Scan(s).Open?
    ensures var at := Scan(s).at; AllForms(s[..at]) && Begins(s[at..])
  {
    CompleteIsValid(s);
    ValidIsForms(s[..Scan(s).at]);
    OpenTail(s);
    IncompleteBegins(s[Scan(s).at..]);
  }

  lemma BegunIsOpen(s: seq<Byte>, end: seq<Byte>)
    requires AllForms(s) && Begins(end) && end != []
    ensures Scan(s + end) == Open(|s|)
  {
    var t :| IsText(t) && Forms(t) == s;
    FormsAreValid(t);
    BeginsIncomplete(end);
    ScanAppend(s, end);
  }

  // ---- whitespace ----

  predicate Whitespace(c: Scalar) {
    || 0x09 <= c <= 0x0D || c == 0x20 || c == 0x85 || c == 0xA0 || c == 0x1680
    || 0x2000 <= c <= 0x200A || c == 0x2028 || c == 0x2029 || c == 0x202F || c == 0x205F || c == 0x3000
  }

  function TrimStart(t: Text): Text {
    if t != [] && Whitespace(t[0]) then TrimStart(t[1..]) else t
  }

  /** Exactly the whitespace before the first other character is gone. */
  lemma {:induction false} TrimExact(t: Text)
    ensures var r := TrimStart(t);
            && |r| <= |t| && t[|t| - |r|..] == r
            && (forall i :: 0 <= i < |t| - |r| ==> Whitespace(t[i]))
            && (r != [] ==> !Whitespace(r[0]))
  {
    var r := TrimStart(t);
    if t != [] && Whitespace(t[0]) {
      TrimExact(t[1..]);
      assert t[1..][|t| - 1 - |r|..] == t[|t| - |r|..];
      forall i | 0 < i < |t| - |r|
        ensures Whitespace(t[i])
      {
        assert t[1..][i - 1] == t[i];
      }
    } else {
      assert t[0..] == t;
    }
  }

  lemma {:induction false} TrimAppend(a: Text, b: Text)
    ensures TrimStart(a + b) == if TrimStart(a) == [] then TrimStart(b) else TrimStart(a) + b
  {
    if a == [] {
      assert a + b == b;
    } else if Whitespace(a[0]) {
      assert (a + b)[1..] == a[1..] + b;
      TrimAppend(a[1..], b);
    }
  }
}
