/** Exactly which texts are job ids, what they mean, and which error the others get. */
module JobIdLanguage {
  import opened Wrappers
  import opened Keys
  import opened Alphabet
  import opened JobIdText

  // ---- Names and numbers ----

  predicate NameChar(c: char) {
    c in LOWER || c in UPPER || c in DIGITS || c == '_' || c == '-'
  }

  lemma NameChars(c: char)
    ensures ValidStepIdChar(c) <==> NameChar(c)
  {
    SmallLetters(c);
    CapitalLetters(c);
    Digits(c);
  }

  /** A name is non-empty, holds only letters, digits, '_' and '-', and is not reserved; the
      characters are checked first. */
  lemma StepIdExactly(s: string)
    ensures var spelled := s != "" && forall i | 0 <= i < |s| :: NameChar(s[i]);
            var reserved := s == "flow" || s == "plan" || s == "experiment" || s == "derived" || s == "status";
            ValidateStepId(s) ==
              if !spelled then Err(InvalidStepId(s)) else if reserved then Err(ReservedJobId(s)) else Ok(s)
  {
    forall i | 0 <= i < |s| ensures ValidStepIdChar(s[i]) <==> NameChar(s[i]) {
      NameChars(s[i]);
    }
  }

  function Pow10(n: nat): nat {
    if n == 0 then 1 else 10 * Pow10(n - 1)
  }

  lemma TenfoldScales(x: nat, p: nat)
    ensures 10 * (x * p) == x * (10 * p)
  {
  }

  /** The leading digit weighs most, and only zero is printed with a leading zero. */
  lemma {:induction false} DigitsWeigh(d: char, rest: string)
    requires IsDigit(d) && AllDigits(rest)
    ensures AllDigits([d] + rest)
    ensures DigitsValue([d] + rest) == (d as int - '0' as int) * Pow10(|rest|) + DigitsValue(rest)
    decreases |rest|
  {
    var all := [d] + rest;
    if rest == "" {
      assert all[..0] == "";
    } else {
      var n := |rest| - 1;
      DigitsWeigh(d, rest[..n]);
      assert all[..|all| - 1] == [d] + rest[..n];
      TenfoldScales(d as int - '0' as int, Pow10(n));
    }
  }

  lemma {:induction false} NoLeadingZero(n: nat)
    ensures Decimal(n) != "" && (n > 0 ==> Decimal(n)[0] != '0')
  {
    if n >= 10 {
      NoLeadingZero(n / 10);
    }
  }

  // ---- Texts ----

  /** An index text: digits, perhaps after a plus sign, with a value in range. */
  predicate IndexText(t: string, n: nat) {
    n < USIZE_LIMIT
    && ((t != "" && AllDigits(t) && DigitsValue(t) == n)
        || (|t| > 1 && t[0] == '+' && AllDigits(t[1..]) && DigitsValue(t[1..]) == n))
  }

  lemma ParsesIndex(t: string, n: nat)
    ensures ParseUsize(t) == Some(n) <==> IndexText(t, n)
  {
    assert t != "" && AllDigits(t) ==> IsDigit(t[0]);
  }

  /** `step__axis=idx__axis=idx`, with the given index texts. */
  function IdText(step: string, axes: Axes, idx: seq<string>): string
    requires |idx| == |axes|
  {
    if axes == [] then step
    else
      var n := |axes| - 1;
      IdText(step, axes[..n], idx[..n]) + "__" + axes[n].0 + "=" + idx[n]
  }

  predicate IndexTexts(axes: Axes, idx: seq<string>) {
    |idx| == |axes| && forall i | 0 <= i < |axes| :: IndexText(idx[i], axes[i].1)
  }

  /** Building writes each axis after the ones before it, name first, index without zeros. */
  lemma {:induction false} BuiltFromFront(step: string, axis: (string, nat), axes: Axes)
    ensures Built(step, []) == step
    ensures Built(step, [axis] + axes) == Built(step + "__" + axis.0 + "=" + Decimal(axis.1), axes)
    decreases |axes|
  {
    var all := [axis] + axes;
    if axes == [] {
      assert all[..0] == [] && all[0] == axis;
      assert step + "__" + (axis.0 + "=" + Decimal(axis.1)) == step + "__" + axis.0 + "=" + Decimal(axis.1);
    } else {
      var n := |axes| - 1;
      BuiltFromFront(step, axis, axes[..n]);
      assert all[..|all| - 1] == [axis] + axes[..n] && all[|all| - 1] == axes[n];
    }
  }

  // ---- Splitting is undone by joining ----

  function Join(pieces: seq<string>): string
    requires pieces != []
  {
    if |pieces| == 1 then pieces[0]
    else Join(pieces[..|pieces| - 1]) + "__" + pieces[|pieces| - 1]
  }

  lemma {:induction false} JoinCons(a: string, pieces: seq<string>)
    requires pieces != []
    ensures Join([a] + pieces) == a + "__" + Join(pieces)
    decreases |pieces|
  {
    var all := [a] + pieces;
    var n := |pieces| - 1;
    assert all[|all| - 1] == pieces[n] && all[..|all| - 1] == [a] + pieces[..n];
    if n > 0 {
      JoinCons(a, pieces[..n]);
      var j, p := Join(pieces[..n]), pieces[n];
      assert (a + "__" + j) + "__" + p == a + "__" + (j + "__" + p);
    } else {
      assert [a] + pieces[..n] == [a];
    }
  }

  lemma {:induction false} SplitRejoins(s: string)
    ensures Join(Split(s)) == s
    decreases |s|
  {
    var n := FirstDunder(s);
    if n < |s| {
      SplitHead(s);
      SplitRejoins(s[n + 2..]);
      JoinCons(s[..n], Split(s[n + 2..]));
    }
  }

  // ---- Which texts parse ----

  function Piece(name: string, t: string): string {
    name + "=" + t
  }

  function Pieces(axes: Axes, idx: seq<string>): seq<string>
    requires |idx| == |axes|
  {
    if axes == [] then []
    else
      var n := |axes| - 1;
      Pieces(axes[..n], idx[..n]) + [Piece(axes[n].0, idx[n])]
  }

  lemma PieceSeparates(name: string, t: string, n: nat)
    requires !HasDunder(name) && IndexText(t, n)
    ensures !HasDunder(Piece(name, t)) && !EndsWithUnderscore(Piece(name, t))
  {
    var p, e := Piece(name, t), |name|;
    forall k | e < k < |p| ensures p[k] != '_' {
      assert p[k] == t[k - e - 1];
      assert k - e - 1 > 0 && !AllDigits(t) ==> t[k - e - 1] == t[1..][k - e - 2];
    }
    assert p[e] == '=';
    forall i ensures !DunderAt(p, i) {
      assert DunderAt(p, i) ==> i + 1 < e;
      assert DunderAt(p, i) ==> DunderAt(name, i);
    }
  }

  lemma PieceParses(id: string, name: string, t: string, n: nat)
    requires ValidateStepId(name).Ok? && IndexText(t, n)
    ensures ParseAxis(id, Piece(name, t)) == Ok((name, n))
  {
    var p := Piece(name, t);
    ParsesIndex(t, n);
    forall i | 0 <= i < |name| ensures p[i] != '=' {
      assert ValidStepIdChar(name[i]);
    }
    assert p[|name|] == '=' && FindEq(p) == |name|;
    assert p[..|name|] == name && p[|name| + 1..] == t;
  }

  lemma IdTextSnoc(step: string, axes: Axes, idx: seq<string>)
    requires |idx| == |axes| && axes != []
    ensures var n := |axes| - 1;
            IdText(step, axes, idx) == IdText(step, axes[..n], idx[..n]) + "__" + Piece(axes[n].0, idx[n])
  {
  }

  lemma {:induction false} SplitIdText(step: string, axes: Axes, idx: seq<string>)
    requires Separable(step, axes) && IndexTexts(axes, idx)
    ensures Split(IdText(step, axes, idx)) == [step] + Pieces(axes, idx)
  {
    if axes != [] {
      var n := |axes| - 1;
      SplitIdText(step, axes[..n], idx[..n]);
      PieceSeparates(axes[n].0, idx[n], axes[n].1);
      if n > 0 {
        PieceSeparates(axes[n - 1].0, idx[n - 1], axes[n - 1].1);
      }
      IdTextSnoc(step, axes, idx);
      SplitAppends(IdText(step, axes[..n], idx[..n]), Piece(axes[n].0, idx[n]));
    }
  }

  lemma {:induction false} PiecesParse(id: string, axes: Axes, idx: seq<string>)
    requires IndexTexts(axes, idx) && forall i | 0 <= i < |axes| :: ValidateStepId(axes[i].0).Ok?
    ensures ParseAxes(id, Pieces(axes, idx)) == Ok(axes)
  {
    if axes != [] {
      var n := |axes| - 1;
      PiecesParse(id, axes[..n], idx[..n]);
      PieceParses(id, axes[n].0, idx[n], axes[n].1);
      LastApart(axes);
      ParseAxesSnoc(id, Pieces(axes[..n], idx[..n]), Piece(axes[n].0, idx[n]), axes[..n], axes[n]);
    }
  }

  lemma IdTextNotEmpty(step: string, axes: Axes, idx: seq<string>)
    requires |idx| == |axes| && step != ""
    ensures IdText(step, axes, idx) != ""
  {
  }

  lemma TextParses(step: string, axes: Axes, idx: seq<string>)
    requires ValidNames(step, axes) && Separable(step, axes) && IndexTexts(axes, idx)
    ensures Parsed(IdText(step, axes, idx)) == Ok(JobIdParts(step, axes))
  {
    var s := IdText(step, axes, idx);
    SplitIdText(step, axes, idx);
    PiecesParse(s, axes, idx);
    assert Split(s)[1..] == Pieces(axes, idx);
    IdTextNotEmpty(step, axes, idx);
  }

  lemma SplitAt(piece: string, e: nat)
    requires e < |piece| && piece[e] == '='
    ensures piece == Piece(piece[..e], piece[e + 1..])
  {
  }

  lemma PieceOfParsed(id: string, piece: string, axis: (string, nat)) returns (t: string)
    requires ParseAxis(id, piece) == Ok(axis)
    ensures piece == Piece(axis.0, t) && IndexText(t, axis.1)
  {
    var e := FindEq(piece);
    t := piece[e + 1..];
    ParsesIndex(t, axis.1);
    SplitAt(piece, e);
  }

  lemma {:induction false} PiecesOfParsed(id: string, step: string, pieces: seq<string>, axes: Axes)
    returns (idx: seq<string>)
    requires ParseAxes(id, pieces) == Ok(axes)
    ensures IndexTexts(axes, idx)
    ensures Join([step] + pieces) == IdText(step, axes, idx)
  {
    if pieces == [] {
      idx := [];
      assert [step] + pieces == [step];
    } else {
      var n := |pieces| - 1;
      var front := ParseAxes(id, pieces[..n]).value;
      var axis := ParseAxis(id, pieces[n]).value;
      var before := PiecesOfParsed(id, step, pieces[..n], front);
      var t := PieceOfParsed(id, pieces[n], axis);
      idx := before + [t];
      assert axes == front + [axis] && idx[..|idx| - 1] == before && axes[..|axes| - 1] == front;
      IdTextSnoc(step, axes, idx);
      var all := [step] + pieces;
      assert all[..|all| - 1] == [step] + pieces[..n] && all[|all| - 1] == pieces[n];
    }
  }

  /** A text parses to `step` and `axes` exactly when the names are valid and separable and the
      text spells them in order, each index in digits, with leading zeros or a plus sign at will. */
  lemma ParsedExactly(s: string, step: string, axes: Axes)
    ensures Parsed(s) == Ok(JobIdParts(step, axes)) <==>
              ValidNames(step, axes) && Separable(step, axes)
              && exists idx :: IndexTexts(axes, idx) && s == IdText(step, axes, idx)
  {
    if Parsed(s) == Ok(JobIdParts(step, axes)) {
      ParsedIsSeparable(s);
      var pieces := Split(s);
      var idx := PiecesOfParsed(s, step, pieces[1..], axes);
      SplitRejoins(s);
      assert [step] + pieces[1..] == pieces;
    }
    if ValidNames(step, axes) && Separable(step, axes) {
      forall idx | IndexTexts(axes, idx) && s == IdText(step, axes, idx)
        ensures Parsed(s) == Ok(JobIdParts(step, axes))
      {
        TextParses(step, axes, idx);
      }
    }
  }

  // ---- Which error the others get ----

  /** Why one piece is no axis: no '='; before the first '=' no name; after it no index. */
  predicate PieceError(id: string, piece: string, e: IdError) {
    e.JobIdParseError? && e.id == id && e.piece == piece
    && match e.reason
       case ExpectedAxisIdx => '=' !in piece
       case InvalidAxisName(name) =>
         Piece(name, "") <= piece && '=' !in name && ValidateStepId(name).Err?
       case InvalidIndex(t) =>
         |t| < |piece| && piece[|piece| - |t|..] == t && piece[|piece| - |t| - 1] == '='
         && ValidateStepId(piece[..|piece| - |t| - 1]).Ok? && ParseUsize(t) == None
  }

  lemma AxisError(id: string, piece: string)
    requires ParseAxis(id, piece).Err?
    ensures PieceError(id, piece, ParseAxis(id, piece).error)
  {
    var e := FindEq(piece);
    if e < |piece| {
      var t := piece[e + 1..];
      assert Piece(piece[..e], "") == piece[..e + 1];
      assert |piece| - |t| == e + 1;
    }
  }

  lemma {:induction false} EachIsAxis(id: string, pieces: seq<string>, k: nat)
    requires ParseAxes(id, pieces).Ok? && k < |pieces|
    ensures ParseAxis(id, pieces[k]).Ok?
    decreases |pieces|
  {
    LastAxisParses(id, pieces);
    if k < |pieces| - 1 {
      EachIsAxis(id, pieces[..|pieces| - 1], k);
    }
  }

  /** The pieces before the one at fault are axes. */
  lemma {:induction false} FirstBadPiece(id: string, pieces: seq<string>) returns (i: nat)
    requires ParseAxes(id, pieces).Err?
    ensures i < |pieces| && PieceError(id, pieces[i], ParseAxes(id, pieces).error)
    ensures ParseAxes(id, pieces[..i]).Ok?
  {
    var n := |pieces| - 1;
    if ParseAxes(id, pieces[..n]).Err? {
      i := FirstBadPiece(id, pieces[..n]);
      assert pieces[..n][..i] == pieces[..i];
    } else {
      i := n;
      AxisError(id, pieces[n]);
    }
  }

  /** A refused text is empty, or its step is no name, or the error is that of its first bad piece. */
  lemma ErrorIsFirst(s: string) returns (i: nat)
    requires Parsed(s).Err?
    ensures i < |Split(s)|
    ensures if s == "" then Parsed(s).error == InvalidJobId("")
            else if ValidateStepId(Split(s)[0]).Err? then Parsed(s).error == ValidateStepId(Split(s)[0]).error
            else i > 0 && PieceError(s, Split(s)[i], Parsed(s).error)
                 && forall k | 0 < k < i :: ParseAxis(s, Split(s)[k]).Ok?
  {
    i := 0;
    if s != "" && ValidateStepId(Split(s)[0]).Ok? {
      var rest := Split(s)[1..];
      var m := FirstBadPiece(s, rest);
      i := m + 1;
      forall k | 0 < k < i ensures ParseAxis(s, Split(s)[k]).Ok? {
        EachIsAxis(s, rest[..m], k - 1);
      }
    }
  }
}
