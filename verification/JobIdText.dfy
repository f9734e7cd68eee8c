/** Job ids as text: `step__axis=idx__axis=idx`, built and parsed. */
module JobIdText {
  import opened Wrappers

  datatype IdError =
    | InvalidStepId(s: string)
    | ReservedJobId(s: string)
    | InvalidJobId(s: string)
    | JobIdParseError(id: string, piece: string, reason: ParseReason)

  datatype ParseReason = ExpectedAxisIdx | InvalidAxisName(axis: string) | InvalidIndex(idx: string)

  type Axes = seq<(string, nat)>

  datatype JobIdParts = JobIdParts(sourceStepId: string, axisCombo: Axes)

  const RESERVED_IDS: seq<string> := ["flow", "plan", "experiment", "derived", "status"]

  /** `usize` on the 64-bit targets the crate is built for. */
  const USIZE_LIMIT: nat := 0x1_0000_0000_0000_0000

  predicate IsDigit(c: char) { '0' <= c <= '9' }

  predicate ValidStepIdChar(c: char) {
    'A' <= c <= 'Z' || 'a' <= c <= 'z' || IsDigit(c) || c == '_' || c == '-'
  }

  function ValidateStepId(s: string): Result<string, IdError> {
    if s == "" || exists i | 0 <= i < |s| :: !ValidStepIdChar(s[i]) then Err(InvalidStepId(s))
    else if s in RESERVED_IDS then Err(ReservedJobId(s))
    else Ok(s)
  }

  // ---- Decimal indices ----

  function DigitChar(d: nat): char
    requires d < 10
  {
    '0' + d as char
  }

  function Decimal(n: nat): string {
    (if n < 10 then "" else Decimal(n / 10)) + [DigitChar(n % 10)]
  }

  predicate AllDigits(s: string) {
    forall i | 0 <= i < |s| :: IsDigit(s[i])
  }

  function DigitsValue(s: string): nat
    requires AllDigits(s)
  {
    if s == "" then 0
    else 10 * DigitsValue(s[..|s| - 1]) + (s[|s| - 1] as int - '0' as int)
  }

  /** `str::parse::<usize>`: an optional plus sign, then digits, within range. */
  function ParseUsize(s: string): Option<nat> {
    var digits := if s != "" && s[0] == '+' then s[1..] else s;
    if digits == "" || !AllDigits(digits) then None
    else if DigitsValue(digits) >= USIZE_LIMIT then None
    else Some(DigitsValue(digits))
  }

  lemma {:induction false} DecimalIsDigits(n: nat)
    ensures Decimal(n) != "" && AllDigits(Decimal(n))
  {
    if n >= 10 {
      DecimalIsDigits(n / 10);
    }
  }

  lemma {:induction false} DecimalValue(n: nat)
    ensures AllDigits(Decimal(n)) && DigitsValue(Decimal(n)) == n
  {
    DecimalIsDigits(n);
    var s := Decimal(n);
    if n < 10 {
      assert s == [DigitChar(n)] && s[..|s| - 1] == "";
      assert DigitsValue("") == 0;
    } else {
      DecimalValue(n / 10);
      assert s[..|s| - 1] == Decimal(n / 10);
    }
  }

  lemma DecimalReadsBack(n: nat)
    requires n < USIZE_LIMIT
    ensures ParseUsize(Decimal(n)) == Some(n)
  {
    DecimalIsDigits(n);
    DecimalValue(n);
    assert IsDigit(Decimal(n)[0]);
  }

  // ---- Splitting on "__" ----

  predicate DunderAt(s: string, i: int) {
    0 <= i < |s| - 1 && s[i] == '_' && s[i + 1] == '_'
  }

  ghost predicate HasDunder(s: string) {
    exists i :: DunderAt(s, i)
  }

  /** Position of the leftmost "__", or the length. */
  function FirstDunder(s: string): (n: nat)
    ensures n <= |s|
    ensures n < |s| ==> DunderAt(s, n)
    ensures forall i | 0 <= i < n :: !DunderAt(s, i)
    ensures n == |s| ==> !HasDunder(s)
  {
    if |s| < 2 then |s|
    else if s[0] == '_' && s[1] == '_' then 0
    else
      var m := FirstDunder(s[1..]);
      assert forall i | 1 <= i < |s| :: DunderAt(s, i) <==> DunderAt(s[1..], i - 1);
      m + 1
  }

  /** `str::split("__")`: leftmost, non-overlapping. */
  function Split(s: string): (pieces: seq<string>)
    ensures pieces != []
    decreases |s|
  {
    var n := FirstDunder(s);
    if n == |s| then [s] else [s[..n]] + Split(s[n + 2..])
  }

  predicate EndsWithUnderscore(s: string) {
    s != "" && s[|s| - 1] == '_'
  }

  /** A separator is found right after a piece that has none and does not end in '_'. */
  lemma FirstDunderAfter(a: string, t: string)
    requires !HasDunder(a) && !EndsWithUnderscore(a)
    ensures FirstDunder(a + "__" + t) == |a|
  {
    var s := a + "__" + t;
    assert DunderAt(s, |a|);
    forall i | 0 <= i < |a| ensures !DunderAt(s, i) {
      assert DunderAt(s, i) ==> DunderAt(a, i) || i == |a| - 1;
    }
  }

  lemma SplitPeels(a: string, t: string)
    requires !HasDunder(a) && !EndsWithUnderscore(a)
    ensures Split(a + "__" + t) == [a] + Split(t)
  {
    FirstDunderAfter(a, t);
    var s := a + "__" + t;
    assert s[..|a|] == a && s[|a| + 2..] == t;
  }

  lemma Rejoin(s: string, n: nat)
    requires DunderAt(s, n)
    ensures s == s[..n] + "__" + s[n + 2..]
  {
  }

  lemma NoDunderBefore(s: string, n: nat)
    requires n <= |s| && forall i | 0 <= i < n :: !DunderAt(s, i)
    ensures !HasDunder(s[..n])
  {
    forall i ensures !DunderAt(s[..n], i) {
      assert DunderAt(s[..n], i) ==> DunderAt(s, i);
    }
  }

  /** The piece before the leftmost separator contains none and does not run into it. */
  lemma SplitHead(s: string)
    requires FirstDunder(s) < |s|
    ensures var n := FirstDunder(s);
            && n + 2 <= |s|
            && !HasDunder(s[..n]) && !EndsWithUnderscore(s[..n])
            && Split(s) == [s[..n]] + Split(s[n + 2..])
            && s == s[..n] + "__" + s[n + 2..]
  {
    var n := FirstDunder(s);
    NoDunderBefore(s, n);
    Rejoin(s, n);
    assert EndsWithUnderscore(s[..n]) ==> DunderAt(s, n as int - 1);
  }

  /** No piece contains the separator, and only the last may end in '_'. */
  lemma {:induction false} SplitPieces(s: string)
    ensures forall i | 0 <= i < |Split(s)| :: !HasDunder(Split(s)[i])
    ensures forall i | 0 <= i < |Split(s)| - 1 :: !EndsWithUnderscore(Split(s)[i])
    decreases |s|
  {
    var n := FirstDunder(s);
    if n < |s| {
      SplitHead(s);
      SplitPieces(s[n + 2..]);
    }
  }

  // ---- Parsing ----

  /** Position of the first '=', or the length. */
  function FindEq(s: string): (n: nat)
    ensures n <= |s|
    ensures n < |s| ==> s[n] == '='
    ensures forall i | 0 <= i < n :: s[i] != '='
  {
    if s == "" || s[0] == '=' then 0 else 1 + FindEq(s[1..])
  }

  function ParseAxis(id: string, piece: string): Result<(string, nat), IdError> {
    var eq := FindEq(piece);
    if eq == |piece| then Err(JobIdParseError(id, piece, ExpectedAxisIdx))
    else
      var axis, idx := piece[..eq], piece[eq + 1..];
      if ValidateStepId(axis).Err? then Err(JobIdParseError(id, piece, InvalidAxisName(axis)))
      else match ParseUsize(idx)
        case None => Err(JobIdParseError(id, piece, InvalidIndex(idx)))
        case Some(n) => Ok((axis, n))
  }

  /** The axes of the pieces, or the first error. */
  function ParseAxes(id: string, pieces: seq<string>): Result<Axes, IdError> {
    if pieces == [] then Ok([])
    else
      var n := |pieces| - 1;
      match ParseAxes(id, pieces[..n])
      case Err(e) => Err(e)
      case Ok(axes) =>
        match ParseAxis(id, pieces[n])
        case Err(e) => Err(e)
        case Ok(axis) => Ok(axes + [axis])
  }

  /** What `parse_job_id` returns. */
  function Parsed(s: string): Result<JobIdParts, IdError> {
    if s == "" then Err(InvalidJobId(""))
    else
      var pieces := Split(s);
      if ValidateStepId(pieces[0]).Err? then Err(ValidateStepId(pieces[0]).error)
      else match ParseAxes(s, pieces[1..])
        case Err(e) => Err(e)
        case Ok(axes) => Ok(JobIdParts(pieces[0], axes))
  }

  method ParseJobId(s: string) returns (r: Result<JobIdParts, IdError>)
    ensures r == Parsed(s)
  {
    if s == "" {
      return Err(InvalidJobId(""));
    }
    var pieces := Split(s);
    var step := ValidateStepId(pieces[0]);
    if step.Err? {
      return Err(step.error);
    }
    var axisCombo: Axes := [];
    var rest := pieces[1..];
    for i := 0 to |rest|
      invariant ParseAxes(s, rest[..i]) == Ok(axisCombo)
    {
      assert rest[..i + 1][..i] == rest[..i];
      var axis := ParseAxis(s, rest[i]);
      if axis.Err? {
        ErrorIsFinal(s, rest, i + 1);
        return Err(axis.error);
      }
      axisCombo := axisCombo + [axis.value];
    }
    assert rest[..|rest|] == rest;
    return Ok(JobIdParts(pieces[0], axisCombo));
  }

  lemma {:induction false} ErrorIsFinal(id: string, pieces: seq<string>, n: nat)
    requires n <= |pieces| && ParseAxes(id, pieces[..n]).Err?
    ensures ParseAxes(id, pieces) == ParseAxes(id, pieces[..n])
    decreases |pieces|
  {
    if n < |pieces| {
      var m := |pieces| - 1;
      assert pieces[..m][..n] == pieces[..n];
      ErrorIsFinal(id, pieces[..m], n);
    } else {
      assert pieces[..n] == pieces;
    }
  }

  // ---- Building ----

  function AxisText(axis: (string, nat)): string {
    axis.0 + "=" + Decimal(axis.1)
  }

  /** What `build_job_id` returns. */
  function Built(step: string, axes: Axes): string {
    if axes == [] then step
    else Built(step, axes[..|axes| - 1]) + "__" + AxisText(axes[|axes| - 1])
  }

  method BuildJobId(step: string, axes: Axes) returns (s: string)
    ensures s == Built(step, axes)
  {
    if axes == [] {
      return step;
    }
    s := step;
    for i := 0 to |axes|
      invariant s == Built(step, axes[..i])
    {
      assert axes[..i + 1][..i] == axes[..i];
      s := s + "__" + AxisText(axes[i]);
    }
    assert axes[..|axes|] == axes;
  }

  // ---- Round trip ----

  predicate ValidNames(step: string, axes: Axes) {
    ValidateStepId(step).Ok?
    && forall i | 0 <= i < |axes| :: ValidateStepId(axes[i].0).Ok? && axes[i].1 < USIZE_LIMIT
  }

  /** No name hides a separator, and the step does not run into the first one. */
  ghost predicate Separable(step: string, axes: Axes) {
    !HasDunder(step) && (axes != [] ==> !EndsWithUnderscore(step))
    && forall i | 0 <= i < |axes| :: !HasDunder(axes[i].0)
  }

  lemma AxisTextSeparates(axis: (string, nat))
    requires !HasDunder(axis.0)
    ensures !HasDunder(AxisText(axis)) && !EndsWithUnderscore(AxisText(axis))
  {
    var t, n, d := AxisText(axis), |axis.0|, Decimal(axis.1);
    DecimalIsDigits(axis.1);
    assert t[n] == '=';
    forall k | n < k < |t| ensures t[k] != '_' {
      assert t[k] == d[k - n - 1] && IsDigit(d[k - n - 1]);
    }
    forall i ensures !DunderAt(t, i) {
      assert DunderAt(t, i) ==> i + 1 < n;
      assert DunderAt(t, i) ==> DunderAt(axis.0, i);
    }
  }

  lemma AxisReadsBack(id: string, axis: (string, nat))
    requires ValidateStepId(axis.0).Ok? && axis.1 < USIZE_LIMIT
    ensures ParseAxis(id, AxisText(axis)) == Ok(axis)
  {
    var t := AxisText(axis);
    DecimalReadsBack(axis.1);
    forall i | 0 <= i < |axis.0| ensures t[i] != '=' {
      assert ValidStepIdChar(axis.0[i]);
    }
    assert t[|axis.0|] == '=';
    assert FindEq(t) == |axis.0|;
    assert t[..|axis.0|] == axis.0 && t[|axis.0| + 1..] == Decimal(axis.1);
  }

  function AxisTexts(axes: Axes): seq<string> {
    if axes == [] then [] else AxisTexts(axes[..|axes| - 1]) + [AxisText(axes[|axes| - 1])]
  }

  lemma Regroup(s: string, a: string, t: string, piece: string)
    requires s == a + "__" + t
    ensures s + "__" + piece == a + "__" + (t + "__" + piece)
  {
  }

  lemma ConsSnoc<T>(x: T, xs: seq<T>, y: T)
    requires xs != []
    ensures [x] + (xs + [y]) == ([x] + xs) + [y]
    ensures ([x] + xs)[|[x] + xs| - 1] == xs[|xs| - 1]
  {
  }

  /** Appending a separable piece after a last piece that cannot run into the separator. */
  lemma {:induction false} SplitAppends(s: string, piece: string)
    requires !EndsWithUnderscore(Split(s)[|Split(s)| - 1]) && !HasDunder(piece)
    ensures Split(s + "__" + piece) == Split(s) + [piece]
    decreases |s|
  {
    var n := FirstDunder(s);
    if n == |s| {
      SplitPeels(s, piece);
    } else {
      var a, t := s[..n], s[n + 2..];
      SplitHead(s);
      ConsSnoc(a, Split(t), piece);
      SplitAppends(t, piece);
      Regroup(s, a, t, piece);
      SplitPeels(a, t + "__" + piece);
    }
  }

  lemma {:induction false} SplitBuilt(step: string, axes: Axes)
    requires Separable(step, axes)
    ensures Split(Built(step, axes)) == [step] + AxisTexts(axes)
  {
    if axes != [] {
      var n := |axes| - 1;
      var front, last := axes[..n], axes[n];
      SplitBuilt(step, front);
      AxisTextSeparates(last);
      if front != [] {
        AxisTextSeparates(front[n - 1]);
      }
      SplitAppends(Built(step, front), AxisText(last));
    }
  }

  lemma ParseAxesSnoc(id: string, pieces: seq<string>, piece: string, axes: Axes, axis: (string, nat))
    requires ParseAxes(id, pieces) == Ok(axes) && ParseAxis(id, piece) == Ok(axis)
    ensures ParseAxes(id, pieces + [piece]) == Ok(axes + [axis])
  {
    var all := pieces + [piece];
    assert all[..|all| - 1] == pieces;
  }

  lemma LastApart<T>(xs: seq<T>)
    requires xs != []
    ensures xs == xs[..|xs| - 1] + [xs[|xs| - 1]]
  {
  }

  lemma {:induction false} AxesReadBack(id: string, axes: Axes)
    requires forall i | 0 <= i < |axes| :: ValidateStepId(axes[i].0).Ok? && axes[i].1 < USIZE_LIMIT
    ensures ParseAxes(id, AxisTexts(axes)) == Ok(axes)
  {
    if axes != [] {
      var n := |axes| - 1;
      AxesReadBack(id, axes[..n]);
      AxisReadsBack(id, axes[n]);
      LastApart(axes);
      ParseAxesSnoc(id, AxisTexts(axes[..n]), AxisText(axes[n]), axes[..n], axes[n]);
    }
  }

  /** Whatever the parser accepts has valid, separable names. */
  lemma {:induction false} ParsedAxes(id: string, pieces: seq<string>)
    requires ParseAxes(id, pieces).Ok?
    requires forall i | 0 <= i < |pieces| :: !HasDunder(pieces[i])
    ensures var axes := ParseAxes(id, pieces).value;
            |axes| == |pieces| && forall i | 0 <= i < |axes| ::
              ValidateStepId(axes[i].0).Ok? && axes[i].1 < USIZE_LIMIT && !HasDunder(axes[i].0)
  {
    if pieces != [] {
      var n := |pieces| - 1;
      ParsedAxes(id, pieces[..n]);
      var name := pieces[n][..FindEq(pieces[n])];
      forall i ensures !DunderAt(name, i) {
        assert DunderAt(name, i) ==> DunderAt(pieces[n], i);
      }
    }
  }

  lemma ParsedIsSeparable(s: string)
    requires Parsed(s).Ok?
    ensures ValidNames(Parsed(s).value.sourceStepId, Parsed(s).value.axisCombo)
    ensures Separable(Parsed(s).value.sourceStepId, Parsed(s).value.axisCombo)
  {
    SplitPieces(s);
    ParsedAxes(s, Split(s)[1..]);
  }

  /** For valid names, parsing inverts building exactly when no name contains "__" and the
      step does not end in '_' before an axis. */
  lemma RoundTrip(step: string, axes: Axes)
    requires ValidNames(step, axes)
    ensures Parsed(Built(step, axes)) == Ok(JobIdParts(step, axes)) <==> Separable(step, axes)
  {
    var s := Built(step, axes);
    if Separable(step, axes) {
      SplitBuilt(step, axes);
      AxesReadBack(s, axes);
      assert Split(s)[1..] == AxisTexts(axes);
      BuiltNotEmpty(step, axes);
    } else if Parsed(s) == Ok(JobIdParts(step, axes)) {
      ParsedIsSeparable(s);
    }
  }

  lemma BuiltNotEmpty(step: string, axes: Axes)
    requires step != ""
    ensures Built(step, axes) != ""
  {
  }

  /** On separable ids, building is injective. */
  lemma BuildInjective(step1: string, axes1: Axes, step2: string, axes2: Axes)
    requires ValidNames(step1, axes1) && Separable(step1, axes1)
    requires ValidNames(step2, axes2) && Separable(step2, axes2)
    requires Built(step1, axes1) == Built(step2, axes2)
    ensures step1 == step2 && axes1 == axes2
  {
    RoundTrip(step1, axes1);
    RoundTrip(step2, axes2);
  }

  /** Rebuilding any accepted id and parsing it again gives the same parts, even where the
      text differs ("+5", "007"). */
  lemma ParseIsStable(s: string)
    requires Parsed(s).Ok?
    ensures Parsed(Built(Parsed(s).value.sourceStepId, Parsed(s).value.axisCombo)) == Parsed(s)
  {
    ParsedIsSeparable(s);
    RoundTrip(Parsed(s).value.sourceStepId, Parsed(s).value.axisCombo);
  }

  // ---- Which characters an accepted id may hold ----

  predicate PathSafeChar(c: char) {
    ValidStepIdChar(c) || c == '=' || c == '+'
  }

  ghost predicate PathSafe(s: string) {
    forall i | 0 <= i < |s| :: PathSafeChar(s[i])
  }

  lemma {:induction false} SplitCoversText(s: string)
    requires forall i | 0 <= i < |Split(s)| :: PathSafe(Split(s)[i])
    ensures PathSafe(s)
    decreases |s|
  {
    var n := FirstDunder(s);
    if n < |s| {
      var t := s[n + 2..];
      assert Split(s) == [s[..n]] + Split(t);
      forall i | 0 <= i < |Split(t)| ensures PathSafe(Split(t)[i]) {
        assert Split(t)[i] == Split(s)[i + 1];
      }
      SplitCoversText(t);
      assert PathSafe(Split(s)[0]);
      forall i | 0 <= i < |s| ensures PathSafeChar(s[i]) {
        if i < n { assert s[i] == s[..n][i]; }
        if i >= n + 2 { assert s[i] == t[i - n - 2]; }
      }
    } else {
      assert Split(s)[0] == s;
    }
  }

  lemma ValidNameIsPathSafe(s: string)
    requires ValidateStepId(s).Ok?
    ensures PathSafe(s)
  {
  }

  lemma AxisIsPathSafe(id: string, piece: string)
    requires ParseAxis(id, piece).Ok?
    ensures PathSafe(piece)
  {
    var eq := FindEq(piece);
    var idx := piece[eq + 1..];
    ValidNameIsPathSafe(piece[..eq]);
    forall i | 0 <= i < |piece| ensures PathSafeChar(piece[i]) {
      if i < eq { assert piece[i] == piece[..eq][i]; }
      if i > eq { assert piece[i] == idx[i - eq - 1]; }
    }
  }

  lemma LastAxisParses(id: string, pieces: seq<string>)
    requires ParseAxes(id, pieces).Ok? && pieces != []
    ensures ParseAxes(id, pieces[..|pieces| - 1]).Ok? && ParseAxis(id, pieces[|pieces| - 1]).Ok?
  {
  }

  lemma {:induction false} EachAxisIsPathSafe(id: string, pieces: seq<string>, piece: string)
    requires ParseAxes(id, pieces).Ok? && piece in pieces
    ensures PathSafe(piece)
    decreases |pieces|
  {
    LastAxisParses(id, pieces);
    var front, last := pieces[..|pieces| - 1], pieces[|pieces| - 1];
    if piece == last {
      AxisIsPathSafe(id, last);
    } else {
      LastApart(pieces);
      EachAxisIsPathSafe(id, front, piece);
    }
  }

  /** An id the parser accepts, and `submit` renders, names a file in one directory: it holds
      only letters, digits and `_`, `-`, `=`, `+`. */
  lemma AcceptedIdIsPathSafe(s: string)
    requires Parsed(s).Ok?
    ensures PathSafe(s) && '/' !in s && '.' !in s
  {
    var pieces := Split(s);
    ValidNameIsPathSafe(pieces[0]);
    forall i | 0 <= i < |pieces| ensures PathSafe(pieces[i]) {
      if i > 0 {
        assert pieces[1..][i - 1] == pieces[i];
        EachAxisIsPathSafe(s, pieces[1..], pieces[i]);
      }
    }
    SplitCoversText(s);
  }

  // ---- validate_job_id ----

  predicate ValidJobIdChar(c: char) { ValidStepIdChar(c) || c == '=' }

  function ValidateJobId(s: string): Result<string, IdError> {
    if s == "" || exists i | 0 <= i < |s| :: !ValidJobIdChar(s[i]) then Err(InvalidJobId(s))
    else if Parsed(s).Err? then Err(Parsed(s).error)
    else Ok(s)
  }

  /** The validator refuses, of the ids the parser accepts, exactly those with a plus sign. */
  lemma ValidatorIsStricter(s: string)
    ensures ValidateJobId(s).Ok? <==> Parsed(s).Ok? && '+' !in s
  {
    if Parsed(s).Ok? {
      AcceptedIdIsPathSafe(s);
      if '+' !in s {
        forall i | 0 <= i < |s| ensures ValidJobIdChar(s[i]) {
          assert PathSafeChar(s[i]) && s[i] in s;
        }
      } else {
        var i :| 0 <= i < |s| && s[i] == '+';
        assert !ValidJobIdChar(s[i]);
      }
    }
  }

  lemma {:induction false} BuiltHasNoPlus(step: string, axes: Axes)
    requires ValidNames(step, axes)
    ensures '+' !in Built(step, axes)
  {
    if axes == [] {
      forall i | 0 <= i < |step| ensures step[i] != '+' { assert ValidStepIdChar(step[i]); }
    } else {
      var n := |axes| - 1;
      BuiltHasNoPlus(step, axes[..n]);
      var d := Decimal(axes[n].1);
      DecimalIsDigits(axes[n].1);
      assert forall i | 0 <= i < |d| :: IsDigit(d[i]);
      assert ValidateStepId(axes[n].0).Ok?;
      assert forall i | 0 <= i < |axes[n].0| :: ValidStepIdChar(axes[n].0[i]);
    }
  }

  /** Ids built from valid, separable names pass the validator. */
  lemma BuiltIsValid(step: string, axes: Axes)
    requires ValidNames(step, axes) && Separable(step, axes)
    ensures ValidateJobId(Built(step, axes)).Ok?
  {
    RoundTrip(step, axes);
    BuiltHasNoPlus(step, axes);
    ValidatorIsStricter(Built(step, axes));
  }
}
