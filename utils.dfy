/**
 * The string utilities of utils.hpp: `clearString` (turn punctuation into
 * underscores, in place), `split` (std::getline tokenising) and
 * `demangleTypedef` (a narrow decoder for Itanium `_ZTI` typeinfo names,
 * section 5.1 of the Itanium C++ ABI).
 */
module Utils {
  import opened Wrappers
  import opened Strings

  // ---------------------------------------------------------------- clearString

  /** The characters clearString replaces: ' '..'/', ':'..'@' and '['..'`'. */
  predicate Replaced(c: char)
  {
    (' ' <= c <= '/') || (':' <= c <= '@') || ('[' <= c <= '`')
  }

  function ClearChar(c: char): (r: char)
    ensures Replaced(c) ==> r == '_'
    ensures !Replaced(c) ==> r == c
  {
    if Replaced(c) then '_' else c
  }

  /** The text clearString leaves behind. */
  function ClearString(s: string): (r: string)
    ensures |r| == |s|
    ensures forall i :: 0 <= i < |s| ==> r[i] == ClearChar(s[i])
  {
    seq(|s|, i requires 0 <= i < |s| => ClearChar(s[i]))
  }

  /**
   * clearString itself: rewrites the characters of the buffer one by one.
   * Every replaced character becomes '_', every other one and the length stay.
   */
  method ClearStringInPlace(str: array<char>)
    modifies str
    ensures str[..] == ClearString(old(str[..]))
    ensures forall i :: 0 <= i < str.Length ==>
      (Replaced(old(str[i])) ==> str[i] == '_') && (!Replaced(old(str[i])) ==> str[i] == old(str[i]))
  {
    var i := 0;
    while i < str.Length
      invariant 0 <= i <= str.Length
      invariant forall j :: 0 <= j < i ==> str[j] == ClearChar(old(str[j]))
      invariant forall j :: i <= j < str.Length ==> str[j] == old(str[j])
    {
      if Replaced(str[i]) {
        str[i] := '_';
      }
      i := i + 1;
    }
  }

  /** '_' is itself in the replaced range, so clearing twice is clearing once. */
  lemma ClearStringIdempotent(s: string)
    ensures ClearString(ClearString(s)) == ClearString(s)
  {
    var once := ClearString(s);
    assert forall i :: 0 <= i < |once| ==> ClearChar(once[i]) == once[i];
  }

  /** A cleared string holds no replaced character other than '_'. */
  lemma ClearStringLeavesNoPunctuation(s: string)
    ensures forall i :: 0 <= i < |s| ==> ClearString(s)[i] == '_' || !Replaced(ClearString(s)[i])
  {
  }

  /** A string without replaced characters is left as it is. */
  lemma ClearStringKeepsClean(s: string)
    requires forall i :: 0 <= i < |s| ==> !Replaced(s[i])
    ensures ClearString(s) == s
  {
  }

  // ---------------------------------------------------------------------- split

  /** The characters std::getline extracts for one token: up to the first delimiter. */
  function TakeToken(s: string, delimiter: char): (t: string)
    ensures |t| <= |s|
  {
    if s == [] || s[0] == delimiter then []
    else [s[0]] + TakeToken(s[1..], delimiter)
  }

  /** The token is a prefix of the input free of delimiters, stopped by one or by the end. */
  lemma {:induction false} TakeTokenIsPrefix(s: string, delimiter: char)
    ensures var t := TakeToken(s, delimiter);
      t == s[..|t|] && (forall i :: 0 <= i < |t| ==> t[i] != delimiter) && (|t| < |s| ==> s[|t|] == delimiter)
    decreases |s|
  {
    if s != [] && s[0] != delimiter {
      TakeTokenIsPrefix(s[1..], delimiter);
    }
  }

  /**
   * The tokens `split` collects: one per std::getline call that extracts
   * something. An empty input gives none, and a trailing delimiter does not
   * start a final empty token.
   */
  function Split(s: string, delimiter: char): (tokens: seq<string>)
    decreases |s|
  {
    if s == [] then []
    else
      var t := TakeToken(s, delimiter);
      if |t| == |s| then [t] else [t] + Split(s[|t| + 1..], delimiter)
  }

  /** The token std::getline extracts ends at the first delimiter, or at the end. */
  lemma {:induction false} TokenEnd(s: string, delimiter: char, k: nat)
    requires k <= |s|
    requires forall j :: 0 <= j < k ==> s[j] != delimiter
    requires k == |s| || s[k] == delimiter
    ensures TakeToken(s, delimiter) == s[..k]
    decreases k
  {
    if k > 0 {
      TokenEnd(s[1..], delimiter, k - 1);
      assert s[..k] == [s[0]] + s[1..][..k - 1];
    }
  }

  /** Splitting from `pos` on: the first token, then the tokens after its delimiter. */
  lemma SplitFrom(input: string, delimiter: char, pos: nat, token: string, next: nat)
    requires pos < |input|
    requires token == TakeToken(input[pos..], delimiter)
    requires next == if pos + |token| < |input| then pos + |token| + 1 else |input|
    ensures Split(input[pos..], delimiter) == [token] + Split(input[next..], delimiter)
  {
    if next < |input| {
      assert input[pos..][|token| + 1..] == input[next..];
    } else {
      assert input[next..] == [];
    }
  }

  /**
   * One std::getline call on the stream positioned at `pos`: the characters
   * up to the next delimiter, and the position after that delimiter.
   */
  method GetLine(input: string, delimiter: char, pos: nat) returns (token: string, next: nat)
    requires pos < |input|
    ensures token == TakeToken(input[pos..], delimiter)
    ensures next == if pos + |token| < |input| then pos + |token| + 1 else |input|
  {
    var end := pos;
    while end < |input| && input[end] != delimiter
      invariant pos <= end <= |input|
      invariant forall j :: pos <= j < end ==> input[j] != delimiter
    {
      end := end + 1;
    }
    token := input[pos..end];
    TokenEnd(input[pos..], delimiter, end - pos);
    assert input[pos..][..end - pos] == token;
    next := if end < |input| then end + 1 else end;
  }

  /** `split`: getline until it extracts nothing, collecting the tokens. */
  method SplitTokens(input: string, delimiter: char) returns (tokens: seq<string>)
    ensures tokens == Split(input, delimiter)
  {
    tokens := [];
    var pos := 0;
    while pos < |input|
      invariant 0 <= pos <= |input|
      invariant tokens + Split(input[pos..], delimiter) == Split(input, delimiter)
      decreases |input| - pos
    {
      var token, next := GetLine(input, delimiter, pos);
      SplitFrom(input, delimiter, pos, token, next);
      assert tokens + ([token] + Split(input[next..], delimiter))
          == (tokens + [token]) + Split(input[next..], delimiter);
      tokens := tokens + [token];
      pos := next;
    }
  }

  /** The tokens joined back with the delimiter between them. */
  function Join(tokens: seq<string>, delimiter: char): (s: string)
  {
    if tokens == [] then []
    else if |tokens| == 1 then tokens[0]
    else tokens[0] + [delimiter] + Join(tokens[1..], delimiter)
  }

  /** No token holds the delimiter. */
  lemma {:induction false} SplitTokensHaveNoDelimiter(s: string, delimiter: char)
    ensures forall k, i :: 0 <= k < |Split(s, delimiter)| && 0 <= i < |Split(s, delimiter)[k]| ==>
      Split(s, delimiter)[k][i] != delimiter
    decreases |s|
  {
    if s != [] {
      var t := TakeToken(s, delimiter);
      TakeTokenIsPrefix(s, delimiter);
      if |t| < |s| {
        SplitTokensHaveNoDelimiter(s[|t| + 1..], delimiter);
      }
    }
  }

  /** Every token followed by the delimiter, one after another. */
  function JoinTerminated(tokens: seq<string>, delimiter: char): (s: string)
  {
    if tokens == [] then [] else tokens[0] + [delimiter] + JoinTerminated(tokens[1..], delimiter)
  }

  lemma {:induction false} JoinTerminatedIsJoin(tokens: seq<string>, delimiter: char)
    requires tokens != []
    ensures JoinTerminated(tokens, delimiter) == Join(tokens, delimiter) + [delimiter]
    decreases |tokens|
  {
    if |tokens| > 1 {
      JoinTerminatedIsJoin(tokens[1..], delimiter);
    }
  }

  /** The first token and, when a delimiter ends it, the text after that delimiter. */
  lemma FirstToken(s: string, delimiter: char)
    requires s != []
    ensures var t := TakeToken(s, delimiter);
      (|t| == |s| ==> t == s && s[|s| - 1] != delimiter && Split(s, delimiter) == [s]) &&
      (|t| < |s| ==> s == t + [delimiter] + s[|t| + 1..] && Split(s, delimiter) == [t] + Split(s[|t| + 1..], delimiter))
  {
    TakeTokenIsPrefix(s, delimiter);
    var t := TakeToken(s, delimiter);
    if |t| < |s| {
      assert s == s[..|t|] + [s[|t|]] + s[|t| + 1..];
    }
  }

  /** Ending every token with the delimiter rebuilds the input with a delimiter at its end. */
  lemma {:induction false} SplitJoinTerminated(s: string, delimiter: char)
    ensures s == [] || s[|s| - 1] == delimiter ==> JoinTerminated(Split(s, delimiter), delimiter) == s
    ensures s != [] && s[|s| - 1] != delimiter ==> JoinTerminated(Split(s, delimiter), delimiter) == s + [delimiter]
    decreases |s|
  {
    if s != [] {
      var t := TakeToken(s, delimiter);
      FirstToken(s, delimiter);
      if |t| < |s| {
        var rest := s[|t| + 1..];
        var tokens := Split(rest, delimiter);
        SplitJoinTerminated(rest, delimiter);
        assert ([t] + tokens)[1..] == tokens;
        assert JoinTerminated(Split(s, delimiter), delimiter) == t + [delimiter] + JoinTerminated(tokens, delimiter);
        if rest != [] {
          assert |rest| == |s| - |t| - 1;
          assert rest[|rest| - 1] == s[|t| + 1 + (|rest| - 1)];
          if rest[|rest| - 1] != delimiter {
            assert t + [delimiter] + (rest + [delimiter]) == s + [delimiter];
          }
        }
      } else {
        assert JoinTerminated([s], delimiter) == s + [delimiter] + JoinTerminated([], delimiter);
      }
    }
  }

  /**
   * Joining the tokens with the delimiter rebuilds the input, except that a
   * trailing delimiter is lost: it ends the last token instead of starting
   * an empty one.
   */
  lemma SplitJoin(s: string, delimiter: char)
    ensures s != [] && s[|s| - 1] == delimiter ==> Join(Split(s, delimiter), delimiter) + [delimiter] == s
    ensures (s == [] || s[|s| - 1] != delimiter) ==> Join(Split(s, delimiter), delimiter) == s
  {
    SplitJoinTerminated(s, delimiter);
    if s != [] {
      var joined := Join(Split(s, delimiter), delimiter);
      JoinTerminatedIsJoin(Split(s, delimiter), delimiter);
      if s[|s| - 1] != delimiter {
        assert joined == (joined + [delimiter])[..|joined|];
        assert s == (s + [delimiter])[..|s|];
      }
    }
  }

  /** An empty input gives no token; two delimiters in a row give an empty one. */
  lemma SplitEdgeCases(s: string, delimiter: char)
    ensures Split([], delimiter) == []
    ensures Split([delimiter] + s, delimiter) == [[]] + Split(s, delimiter)
    ensures Split([delimiter], delimiter) == [[]]
  {
    assert ([delimiter] + s)[1..] == s;
  }

  // ------------------------------------------------------------ demangleTypedef

  const INT_MIN: int := -0x8000_0000
  const INT_MAX: int := 0x7fff_ffff
  /** 2^64: std::size_t arithmetic wraps modulo this. */
  const SIZE_MODULUS: int := 0x1_0000_0000_0000_0000

  /** `std::isspace` in the C locale. */
  predicate IsSpace(c: char)
  {
    c == ' ' || 9 <= c as int <= 13
  }

  function Clamp(v: int): (r: int)
    ensures INT_MIN <= r <= INT_MAX
    ensures INT_MIN <= v <= INT_MAX ==> r == v
  {
    if v < INT_MIN then INT_MIN else if v > INT_MAX then INT_MAX else v
  }

  /** Where the scan of a number stands. */
  datatype Phase = Spaces | Sign | FirstDigit | Digits

  function Rank(p: Phase): nat
  {
    match p
    case Spaces => 3
    case Sign => 2
    case FirstDigit => 1
    case Digits => 0
  }

  /**
   * `stream >> int` as libstdc++ does it, one character at a time: skip
   * white space, take an optional sign, then a run of decimal digits
   * accumulated in `acc`. A value out of range is clamped to the int range;
   * when the conversion finds no digit it stores 0. Text holding nothing
   * but white space never reaches the conversion (see StreamExtract); the
   * scan gives 0 for it too.
   */
  function Scan(s: string, phase: Phase, negative: bool, acc: nat): (v: int)
    ensures INT_MIN <= v <= INT_MAX
    decreases |s|, Rank(phase)
  {
    match phase
    case Spaces =>
      if s != [] && IsSpace(s[0]) then Scan(s[1..], Spaces, false, 0) else Scan(s, Sign, false, 0)
    case Sign =>
      if s != [] && (s[0] == '-' || s[0] == '+') then Scan(s[1..], FirstDigit, s[0] == '-', 0)
      else Scan(s, FirstDigit, false, 0)
    case FirstDigit =>
      if s != [] && IsDigit(s[0]) then Scan(s[1..], Digits, negative, DigitValue(s[0])) else 0
    case Digits =>
      if s != [] && IsDigit(s[0]) then Scan(s[1..], Digits, negative, acc * 10 + DigitValue(s[0]))
      else Clamp(if negative then 0 - acc else acc)
  }

  /**
   * The length the decoding loop acts on when `rest` is `s`: the int
   * `stream >> length` stores, and 0 when only white space is left, where
   * the source stores nothing (see StreamExtract).
   */
  function ReadInt(s: string): (v: int)
    ensures INT_MIN <= v <= INT_MAX
  {
    Scan(s, Spaces, false, 0)
  }

  /**
   * `ss >> length` as written. When nothing but white space is left, the
   * stream's sentry fails before any conversion and `length`, declared
   * without an initialiser, receives no value: None. Otherwise the
   * conversion runs and stores what ReadInt gives.
   */
  function StreamExtract(s: string): (v: Option<int>)
    ensures v.None? <==> forall i :: 0 <= i < |s| ==> IsSpace(s[i])
    ensures v.Some? ==> v.value == ReadInt(s)
    decreases |s|
  {
    if s == [] then None
    else if IsSpace(s[0]) then
      assert forall i :: 1 <= i < |s| ==> s[i] == s[1..][i - 1];
      StreamExtract(s[1..])
    else Some(ReadInt(s))
  }

  /**
   * Text that starts with a character that is no space, sign or digit
   * reads as 0, the value the failed conversion stores: the loop stops
   * there. The empty text reads as 0 too, where the source stores nothing.
   */
  lemma ReadNoNumber(s: string)
    requires s == [] || !(IsSpace(s[0]) || IsDigit(s[0]) || s[0] == '-' || s[0] == '+')
    ensures ReadInt(s) == 0
  {
    assert Scan(s, Spaces, false, 0) == Scan(s, Sign, false, 0);
    assert Scan(s, Sign, false, 0) == Scan(s, FirstDigit, false, 0);
  }

  /** Digits accumulated from the front, most significant first. */
  function Accumulate(t: string, acc: nat): (v: nat)
    requires forall i :: 0 <= i < |t| ==> IsDigit(t[i])
  {
    if t == [] then acc else Accumulate(t[1..], acc * 10 + DigitValue(t[0]))
  }

  lemma {:induction false} AccumulateSnoc(t: string, c: char, acc: nat)
    requires forall i :: 0 <= i < |t| ==> IsDigit(t[i])
    requires IsDigit(c)
    ensures Accumulate(t + [c], acc) == Accumulate(t, acc) * 10 + DigitValue(c)
    decreases |t|
  {
    if t != [] {
      assert (t + [c])[1..] == t[1..] + [c];
      AccumulateSnoc(t[1..], c, acc * 10 + DigitValue(t[0]));
    }
  }

  /** Accumulating from the front gives the value of the digit run. */
  lemma {:induction false} AccumulateIsValue(t: string)
    requires forall i :: 0 <= i < |t| ==> IsDigit(t[i])
    ensures Accumulate(t, 0) == DigitsValue(t)
    decreases |t|
  {
    if t != [] {
      var init := t[..|t| - 1];
      AccumulateIsValue(init);
      AccumulateSnoc(init, t[|t| - 1], 0);
      assert init + [t[|t| - 1]] == t;
    }
  }

  /** The digit phase reads exactly the digits of `t` when a non-digit follows. */
  lemma {:induction false} ScanDigits(t: string, s: string, negative: bool, acc: nat)
    requires forall i :: 0 <= i < |t| ==> IsDigit(t[i])
    requires s == [] || !IsDigit(s[0])
    ensures Scan(t + s, Digits, negative, acc) == Clamp(if negative then 0 - Accumulate(t, acc) else Accumulate(t, acc))
    decreases |t|
  {
    if t == [] {
      assert t + s == s;
    } else {
      assert (t + s)[1..] == t[1..] + s;
      ScanDigits(t[1..], s, negative, acc * 10 + DigitValue(t[0]));
    }
  }

  /** What demangleTypedef produces; the source throws or never returns in the last two. */
  datatype Outcome = Decoded(text: string) | OutOfRange | Diverges

  /** One round of the decoding loop, read off the front of `rest`. */
  datatype Step =
    | Stop                                  // the length reads as 0
    | Overrun                               // a substr position past the end
    | Stuck                                 // `rest` would not shrink: the loop never ends
    | Advance(piece: string, next: nat)     // write `piece`, go on from `rest[next..]`

  /**
   * The length is re-read from the start of `rest`, but the component is
   * taken after as many characters as the length's own decimal text has.
   * Both substr arguments are std::size_t, so a negative length wraps.
   */
  function NextComponent(rest: string): (st: Step)
    ensures st.Advance? ==> 0 < st.next <= |rest|
  {
    var length := ReadInt(rest);
    if length == 0 then Stop
    else
      var k := |IntText(length)|;
      var count := if length >= 0 then length else length + SIZE_MODULUS;
      var pos := k + length;
      if k > |rest| || pos < 0 || pos > |rest| then Overrun
      else if pos == 0 then Stuck
      else Advance(rest[k..k + (if count < |rest| - k then count else |rest| - k)], pos)
  }

  /** The `::` written after a component when another length follows. */
  function Separator(nspace: bool, rest: string): string
  {
    if nspace && rest != [] && IsDigit(rest[0]) then "::" else ""
  }

  /** The decoding loop from `rest` on, with `out` written so far. */
  function DecodeComponents(rest: string, nspace: bool, out: string): (r: Outcome)
    decreases |rest|
  {
    match NextComponent(rest)
    case Stop => Decoded(out)
    case Overrun => OutOfRange
    case Stuck => Diverges
    case Advance(piece, next) =>
      DecodeComponents(rest[next..], nspace, out + piece + Separator(nspace, rest[next..]))
  }

  /** demangleTypedef as a function of the mangled name. */
  function DemangleTypedef(mangled: string): (r: Outcome)
  {
    if StartsWith(mangled, "_ZTI") then
      var rest := mangled[4..];
      var nspace := rest != [] && rest[0] == 'N';
      DecodeComponents(if nspace then rest[1..] else rest, nspace, "")
    else Decoded("")
  }

  /** demangleTypedef: the loop over `rest` and the output stream. */
  method DemangleTypedefLoop(mangled: string) returns (r: Outcome)
    ensures r == DemangleTypedef(mangled)
  {
    if !(|mangled| >= 4 && mangled[..4] == "_ZTI") {
      return Decoded("");
    }
    var rest := mangled[4..];
    var nspace := rest != [] && rest[0] == 'N';
    if nspace {
      rest := rest[1..];
    }
    var out := "";
    while true
      invariant DecodeComponents(rest, nspace, out) == DemangleTypedef(mangled)
      decreases |rest|
    {
      var length := ReadInt(rest);
      if length == 0 {
        return Decoded(out);
      }
      var k := |IntText(length)|;
      if k > |rest| {
        return OutOfRange;
      }
      var count := if length >= 0 then length else length + SIZE_MODULUS;
      if count > |rest| - k {
        count := |rest| - k;
      }
      var piece := rest[k..k + count];
      var pos := k + length;
      if pos < 0 || pos > |rest| {
        return OutOfRange;
      }
      if pos == 0 {
        return Diverges;
      }
      NextComponentAdvances(rest, length, k, count, pos);
      DecodeRound(rest, nspace, out);
      rest := rest[pos..];
      var sep := "";
      if nspace && rest != [] && IsDigit(rest[0]) {
        sep := "::";
      }
      out := out + piece + sep;
    }
  }

  /** The round the loop body computes step by step is the one NextComponent describes. */
  lemma NextComponentAdvances(rest: string, length: int, k: nat, count: int, pos: int)
    requires length == ReadInt(rest) && length != 0
    requires k == |IntText(length)| && k <= |rest|
    requires count == (if length >= 0 then length else length + SIZE_MODULUS)
                   || (count == |rest| - k && (if length >= 0 then length else length + SIZE_MODULUS) > count)
    requires 0 <= count <= |rest| - k
    requires pos == k + length && 0 < pos <= |rest|
    ensures NextComponent(rest) == Advance(rest[k..k + count], pos)
  {
  }

  /** One round of the loop, as DecodeComponents takes it. */
  lemma DecodeRound(rest: string, nspace: bool, out: string)
    requires NextComponent(rest).Advance?
    ensures var next := NextComponent(rest).next;
      DecodeComponents(rest, nspace, out)
      == DecodeComponents(rest[next..], nspace, out + NextComponent(rest).piece + Separator(nspace, rest[next..]))
  {
  }

  /** A name not starting with `_ZTI` decodes to the empty string. */
  lemma DemangleWithoutPrefix(mangled: string)
    requires !StartsWith(mangled, "_ZTI")
    ensures DemangleTypedef(mangled) == Decoded("")
  {
  }

  /** Reading the decimal text of a length followed by a non-digit gives that length. */
  lemma ReadLength(n: nat, s: string)
    requires 0 < n <= INT_MAX
    requires s == [] || !IsDigit(s[0])
    ensures ReadInt(NatText(n) + s) == n
  {
    var t := NatText(n);
    var ts := t + s;
    assert ts[0] == t[0] && ts[1..] == t[1..] + s;
    assert Scan(ts, Spaces, false, 0) == Scan(ts, Sign, false, 0);
    assert Scan(ts, Sign, false, 0) == Scan(ts, FirstDigit, false, 0);
    assert Scan(ts, FirstDigit, false, 0) == Scan(ts[1..], Digits, false, DigitValue(t[0]));
    ScanDigits(t[1..], s, false, DigitValue(t[0]));
    assert Accumulate(t, 0) == Accumulate(t[1..], DigitValue(t[0]));
    AccumulateIsValue(t);
    DigitsValueOfNatText(n);
  }

  /** A component name the decoder can read back: non-empty, not starting with a digit, an int-sized length. */
  predicate ValidComponent(name: string)
  {
    0 < |name| <= INT_MAX && !IsDigit(name[0])
  }

  /** The length-prefixed form of a list of names (a `<source-name>` sequence). */
  function Encode(names: seq<string>): (s: string)
    requires forall i :: 0 <= i < |names| ==> ValidComponent(names[i])
    ensures names != [] ==> s != [] && IsDigit(s[0])
  {
    if names == [] then []
    else NatText(|names[0]|) + names[0] + Encode(names[1..])
  }

  /** The names joined by `::`. */
  function JoinScope(names: seq<string>): (s: string)
  {
    if names == [] then []
    else if |names| == 1 then names[0]
    else names[0] + "::" + JoinScope(names[1..])
  }

  /** The names concatenated without separator. */
  function Concat(names: seq<string>): (s: string)
  {
    if names == [] then [] else names[0] + Concat(names[1..])
  }

  /** Decoding one `<length><name>` component off the front of `rest`. */
  lemma DecodeStep(rest: string, name: string, tail: string, nspace: bool, out: string, out': string)
    requires ValidComponent(name)
    requires rest == NatText(|name|) + name + tail
    requires out' == out + name + Separator(nspace, tail)
    ensures DecodeComponents(rest, nspace, out) == DecodeComponents(tail, nspace, out')
  {
    var t := NatText(|name|);
    assert rest == t + (name + tail);
    ReadLength(|name|, name + tail);
    assert IntText(|name|) == t;
    assert rest[|t|..|t| + |name|] == name;
    assert rest[|t| + |name|..] == tail;
  }

  /** The first component of an encoded list, decoded. */
  lemma DecodeFirst(names: seq<string>, suffix: string, nspace: bool, out: string, out': string)
    requires forall i :: 0 <= i < |names| ==> ValidComponent(names[i])
    requires names != []
    requires out' == out + names[0] + Separator(nspace, Encode(names[1..]) + suffix)
    ensures DecodeComponents(Encode(names) + suffix, nspace, out)
         == DecodeComponents(Encode(names[1..]) + suffix, nspace, out')
  {
    var tail := Encode(names[1..]) + suffix;
    EncodeCons(names, suffix);
    DecodeStep(Encode(names) + suffix, names[0], tail, nspace, out, out');
  }

  lemma EncodeCons(names: seq<string>, suffix: string)
    requires forall i :: 0 <= i < |names| ==> ValidComponent(names[i])
    requires names != []
    ensures Encode(names) + suffix == NatText(|names[0]|) + names[0] + (Encode(names[1..]) + suffix)
  {
  }

  /** What the decoder writes for a list of components: `::`-joined with `N`, concatenated without. */
  function Written(names: seq<string>, nspace: bool): string
  {
    if nspace then JoinScope(names) else Concat(names)
  }

  /** Decoding an encoded list followed by text that reads as no length. */
  lemma {:induction false} DecodeEncoded(names: seq<string>, suffix: string, nspace: bool, out: string)
    requires forall i :: 0 <= i < |names| ==> ValidComponent(names[i])
    requires ReadInt(suffix) == 0 && (suffix == [] || !IsDigit(suffix[0]))
    ensures DecodeComponents(Encode(names) + suffix, nspace, out) == Decoded(out + Written(names, nspace))
    decreases |names|
  {
    if names == [] {
      assert Encode(names) + suffix == suffix;
    } else {
      var out' := out + names[0] + Separator(nspace, Encode(names[1..]) + suffix);
      DecodeFirst(names, suffix, nspace, out, out');
      DecodeEncoded(names[1..], suffix, nspace, out');
      WrittenCons(names, suffix, nspace, out, out');
    }
  }

  lemma WrittenCons(names: seq<string>, suffix: string, nspace: bool, out: string, out': string)
    requires forall i :: 0 <= i < |names| ==> ValidComponent(names[i])
    requires names != [] && (suffix == [] || !IsDigit(suffix[0]))
    requires out' == out + names[0] + Separator(nspace, Encode(names[1..]) + suffix)
    ensures out' + Written(names[1..], nspace) == out + Written(names, nspace)
  {
    var sep := Separator(nspace, Encode(names[1..]) + suffix);
    assert sep == (if nspace && |names| > 1 then "::" else "");
  }

  /** After `_ZTIN` the loop starts on the rest with `::` separators on. */
  lemma DemangleNested(rest: string)
    ensures DemangleTypedef("_ZTIN" + rest) == DecodeComponents(rest, true, "")
  {
    var m := "_ZTIN" + rest;
    assert m[..4] == "_ZTI" && m[4..][1..] == rest;
  }

  /** After `_ZTI` and no `N`, the loop starts on the rest with separators off. */
  lemma DemanglePlain(rest: string)
    requires rest == [] || rest[0] != 'N'
    ensures DemangleTypedef("_ZTI" + rest) == DecodeComponents(rest, false, "")
  {
    var m := "_ZTI" + rest;
    assert m[..4] == "_ZTI" && m[4..] == rest;
  }

  /**
   * Round trip for nested names: `_ZTIN <len><name>... E` decodes to the
   * names joined by `::`.
   */
  lemma DemangleNestedName(names: seq<string>)
    requires forall i :: 0 <= i < |names| ==> ValidComponent(names[i])
    ensures DemangleTypedef("_ZTIN" + Encode(names) + "E") == Decoded(JoinScope(names))
  {
    assert "_ZTIN" + Encode(names) + "E" == "_ZTIN" + (Encode(names) + "E");
    DemangleNested(Encode(names) + "E");
    DecodeEncodedNested(names);
  }

  lemma DecodeEncodedNested(names: seq<string>)
    requires forall i :: 0 <= i < |names| ==> ValidComponent(names[i])
    ensures DecodeComponents(Encode(names) + "E", true, "") == Decoded(JoinScope(names))
  {
    ReadNoNumber("E");
    DecodeEncoded(names, "E", true, "");
    assert "" + Written(names, true) == JoinScope(names);
  }

  /**
   * Without `N` the components are written one after another with no
   * separator: `_ZTI <len><name>...` decodes to their concatenation.
   */
  lemma DemangleFlatName(names: seq<string>)
    requires forall i :: 0 <= i < |names| ==> ValidComponent(names[i])
    ensures DemangleTypedef("_ZTI" + Encode(names)) == Decoded(Concat(names))
  {
    DemanglePlain(Encode(names));
    DecodeEncodedFlat(names);
  }

  lemma DecodeEncodedFlat(names: seq<string>)
    requires forall i :: 0 <= i < |names| ==> ValidComponent(names[i])
    ensures DecodeComponents(Encode(names), false, "") == Decoded(Concat(names))
  {
    assert Encode(names) + "" == Encode(names);
    ReadNoNumber("");
    DecodeEncoded(names, "", false, "");
    assert "" + Written(names, false) == Concat(names);
  }

  /**
   * As written, decoding a flat `_ZTI<len><name>` ends with a read from an
   * empty `rest`: the first round reads the length, takes the whole name
   * and leaves nothing, and the next `ss >> length` stores no value, so
   * the loop tests an uninitialised int. ReadInt takes that read as 0, the
   * stop the loop is evidently meant to reach (DemangleFlatName).
   */
  lemma FlatLastReadUninitialised(name: string)
    requires ValidComponent(name)
    ensures var rest := NatText(|name|) + name;
      StreamExtract(rest) == Some(|name|) &&
      NextComponent(rest) == Advance(name, |rest|) &&
      StreamExtract(rest[|rest|..]) == None
  {
    var t := NatText(|name|);
    var rest := t + name;
    assert rest == t + name + "";
    ReadLength(|name|, name);
    assert IntText(|name|) == t;
    assert rest[|t|..|t| + |name|] == name;
  }

  /**
   * A length prefix longer than the text after it makes the second substr
   * throw std::out_of_range.
   */
  lemma DemangleOverlongComponent(n: nat, text: string)
    requires 0 < n <= INT_MAX
    requires |text| < n
    requires text == [] || !IsDigit(text[0])
    ensures DemangleTypedef("_ZTI" + NatText(n) + text) == OutOfRange
  {
    assert "_ZTI" + NatText(n) + text == "_ZTI" + (NatText(n) + text);
    DemanglePlain(NatText(n) + text);
    ReadLength(n, text);
  }
}
