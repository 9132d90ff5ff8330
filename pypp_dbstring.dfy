/**
 * The Python++ 64-bit generator's encoding of a string literal as the
 * operand list of a NASM `db` directive: maximal runs of printable bytes
 * become one double-quoted item (a `"` inside a run written twice), every
 * other byte becomes one decimal item, items are separated by ", ", and a
 * final 0 terminates the data.
 *
 * A character of a Dafny string stands for one byte of the C string; the
 * encoding stops at the first NUL, as the C loop does.
 */
module PyppDbString {
  import opened CLib

  /** The byte value the generator prints for a character. */
  function Code(c: char): nat {
    c as nat
  }

  function Codes(s: string): (r: seq<nat>)
    ensures |r| == |s|
    ensures forall i :: 0 <= i < |s| ==> r[i] == Code(s[i])
  {
    seq(|s|, i requires 0 <= i < |s| => Code(s[i]))
  }

  /** A byte that may appear inside a quoted run: not a control byte, not DEL. */
  predicate Printable(c: char) {
    Code(c) >= 32 && Code(c) != 127
  }

  /** One operand of the `db` directive. */
  datatype Item = Quoted(run: string) | Num(code: nat)

  /** The item structure of the operand list for s, built left to right
      exactly as the encoder's loop meets the bytes. */
  function Items(s: string): seq<Item>
    decreases |s|
  {
    if s == [] then [] else Push(Items(s[..|s| - 1]), s[|s| - 1])
  }

  /** One more byte: a printable byte extends an open quoted run or opens a
      new one, any other byte is a number. */
  function Push(xs: seq<Item>, c: char): seq<Item> {
    if !Printable(c) then xs + [Num(Code(c))]
    else if EndsQuoted(xs) then xs[..|xs| - 1] + [Quoted(xs[|xs| - 1].run + [c])]
    else xs + [Quoted([c])]
  }

  predicate EndsQuoted(xs: seq<Item>) {
    |xs| > 0 && xs[|xs| - 1].Quoted?
  }

  /** A quoted run with its double quotes doubled. */
  function Escape(r: string): string
    decreases |r|
  {
    if r == [] then "" else Escape(r[..|r| - 1]) + EscapeChar(r[|r| - 1])
  }

  function EscapeChar(c: char): string {
    if c == '"' then "\"\"" else [c]
  }

  function Render(x: Item): string {
    match x
    case Quoted(r) => "\"" + Escape(r) + "\""
    case Num(b) => NatToString(b)
  }

  /** The items rendered and separated by ", ". */
  function Join(xs: seq<Item>): string
    decreases |xs|
  {
    if xs == [] then ""
    else if |xs| == 1 then Render(xs[0])
    else Render(xs[0]) + ", " + Join(xs[1..])
  }

  /** The operands before the terminating 0 for the C string held in s. */
  function Body(s: string): string {
    Join(Items(s[..CStrLen(s)]))
  }

  /** The whole line `emit_nasm_db_string` writes (without its newline). */
  function DbLine(name: string, s: string): string {
    name + " db " + Body(s) + ", 0"
  }

  // ---------------------------------------------------------------------
  // The encoder, as the C function writes it: one pass with an `open`
  // flag (a quoted run is in progress) and a `first` flag (nothing has
  // been written yet).
  // ---------------------------------------------------------------------

  method EmitDbString(name: string, s: string) returns (line: string)
    ensures line == DbLine(name, s)
  {
    var text := "";
    var open := false;
    var first := true;
    var i := 0;
    ghost var xs: seq<Item> := [];
    while i < |s| && s[i] != '\0'
      invariant i <= |s|
      invariant forall k :: 0 <= k < i ==> s[k] != '\0'
      invariant xs == Items(s[..i])
      invariant Written(xs, open, first, text)
    {
      open, first, text := EmitByte(s[i], open, first, text, xs);
      ItemsStep(s, i);
      xs := Push(xs, s[i]);
      i := i + 1;
    }
    CStrLenAt(s, i);
    if open {
      JoinClose(xs);
      text := text + "\"";
    }
    assert text == Body(s);
    line := name + " db " + text + ", 0";
  }

  /** The loop stops at the C string's end. */
  lemma CStrLenAt(s: string, i: nat)
    requires i <= |s| && (i == |s| || s[i] == '\0')
    requires forall k :: 0 <= k < i ==> s[k] != '\0'
    ensures CStrLen(s) == i
  {
  }

  /** The encoder's state after the items xs: `open` says a quoted run is in
      progress (its closing quote not yet written), `first` that nothing
      has been written. */
  predicate Written(xs: seq<Item>, open: bool, first: bool, text: string) {
    && open == EndsQuoted(xs)
    && first == (xs == [])
    && text == (if open then JoinOpen(xs) else Join(xs))
  }

  /** One iteration of the encoder's loop. */
  method EmitByte(c: char, open: bool, first: bool, text: string, ghost xs: seq<Item>)
    returns (open': bool, first': bool, text': string)
    requires Written(xs, open, first, text)
    ensures Written(Push(xs, c), open', first', text')
  {
    open', first', text' := open, first, text;
    if Printable(c) {
      if !open' {
        JoinOpenNew(xs, c);
        if !first' {
          text' := text' + ", ";
        }
        text' := text' + "\"";
        open' := true;
        first' := false;
      } else {
        OpenExtend(xs, c);
      }
      text' := text' + EscapeChar(c);
    } else {
      JoinSnoc(xs, Num(Code(c)));
      if open' {
        JoinClose(xs);
        text' := text' + "\"";
        open' := false;
      }
      if !first' {
        text' := text' + ", ";
      }
      text' := text' + NatToString(Code(c));
      first' := false;
    }
  }

  /** One more byte of input, as the encoder's loop sees it. */
  lemma ItemsStep(s: string, i: nat)
    requires i < |s|
    ensures Items(s[..i + 1]) == Push(Items(s[..i]), s[i])
  {
    assert s[..i + 1][..i] == s[..i];
  }

  /** A printable byte after a closed item (or at the start) opens a quote. */
  lemma JoinOpenNew(xs: seq<Item>, c: char)
    ensures JoinOpen(xs + [Quoted([c])]) == Join(xs) + Sep(xs) + "\"" + EscapeChar(c)
  {
    assert (xs + [Quoted([c])])[..|xs|] == xs;
    assert Escape([c]) == EscapeChar(c) by { assert [c][..0] == []; }
  }

  function Sep(xs: seq<Item>): string {
    if xs == [] then "" else ", "
  }

  /** What has been written while the last, quoted, item is still open. */
  function JoinOpen(xs: seq<Item>): string
    requires EndsQuoted(xs)
  {
    var ys := xs[..|xs| - 1];
    Join(ys) + Sep(ys) + "\"" + Escape(xs[|xs| - 1].run)
  }

  lemma ItemsEmpty(s: string)
    ensures Items(s) == [] <==> s == []
  {
  }

  lemma {:induction false} JoinSnoc(xs: seq<Item>, x: Item)
    ensures Join(xs + [x]) == Join(xs) + Sep(xs) + Render(x)
    decreases |xs|
  {
    if |xs| > 1 {
      var p := Render(xs[0]) + ", ";
      var j := Join(xs[1..]);
      assert (xs + [x])[1..] == xs[1..] + [x];
      JoinSnoc(xs[1..], x);
      assert Join(xs + [x]) == p + ((j + ", ") + Render(x));
      ConcatAssoc(p, j + ", ", Render(x));
      ConcatAssoc(p, j, ", ");
    } else if |xs| == 1 {
      assert (xs + [x])[1..] == [x];
    }
  }

  /** Closing the open quoted item gives the full rendering. */
  lemma JoinClose(xs: seq<Item>)
    requires EndsQuoted(xs)
    ensures Join(xs) == JoinOpen(xs) + "\""
  {
    var ys := xs[..|xs| - 1];
    var js := Join(ys) + Sep(ys);
    var e := Escape(xs[|xs| - 1].run);
    assert ys + [xs[|xs| - 1]] == xs;
    JoinSnoc(ys, xs[|xs| - 1]);
    ConcatAssoc(js, "\"" + e, "\"");
    ConcatAssoc(js, "\"", e);
  }

  /** A printable byte joins the open quoted item. */
  lemma OpenExtend(xs: seq<Item>, c: char)
    requires EndsQuoted(xs)
    ensures var n := |xs| - 1;
      JoinOpen(xs[..n] + [Quoted(xs[n].run + [c])]) == JoinOpen(xs) + EscapeChar(c)
  {
    var n := |xs| - 1;
    var r := xs[n].run;
    var ys := xs[..n];
    assert (ys + [Quoted(r + [c])])[..n] == ys;
    assert Escape(r + [c]) == Escape(r) + EscapeChar(c) by {
      assert (r + [c])[..|r|] == r;
    }
    ConcatAssoc(Join(ys) + Sep(ys) + "\"", Escape(r), EscapeChar(c));
  }


  // ---------------------------------------------------------------------
  // What the items mean: the bytes they stand for, and the shape the
  // encoder guarantees.
  // ---------------------------------------------------------------------

  function ItemCodes(x: Item): seq<nat> {
    match x
    case Quoted(r) => Codes(r)
    case Num(b) => [b]
  }

  /** The bytes an operand list stands for, in order. */
  function Flatten(xs: seq<Item>): seq<nat>
    decreases |xs|
  {
    if xs == [] then [] else ItemCodes(xs[0]) + Flatten(xs[1..])
  }

  /** Every quoted item is a non-empty run of printable bytes, every number
      is a byte that is not printable, and no two quoted items are
      adjacent: each run of printable bytes is quoted as a whole. */
  predicate WellFormed(xs: seq<Item>) {
    (forall k :: 0 <= k < |xs| ==> ItemOk(xs[k]))
    && (forall k :: 0 < k < |xs| && xs[k].Quoted? ==> !xs[k - 1].Quoted?)
  }

  predicate ItemOk(x: Item) {
    match x
    case Quoted(r) => r != [] && forall j :: 0 <= j < |r| ==> Printable(r[j])
    case Num(b) => b < 32 || b == 127
  }

  lemma {:induction false} FlattenSnoc(xs: seq<Item>, x: Item)
    ensures Flatten(xs + [x]) == Flatten(xs) + ItemCodes(x)
    decreases |xs|
  {
    if xs != [] {
      assert (xs + [x])[1..] == xs[1..] + [x];
      FlattenSnoc(xs[1..], x);
    }
  }

  /** The encoder loses no byte and reorders none. */
  lemma {:induction false} ItemsFlatten(s: string)
    ensures Flatten(Items(s)) == Codes(s)
    decreases |s|
  {
    if s != [] {
      var n := |s| - 1;
      ItemsFlatten(s[..n]);
      ItemsStep(s, n);
      assert s[..n + 1] == s;
      FlattenPush(Items(s[..n]), s[n]);
      assert Codes(s) == Codes(s[..n]) + [Code(s[n])];
    }
  }

  lemma FlattenPush(xs: seq<Item>, c: char)
    ensures Flatten(Push(xs, c)) == Flatten(xs) + [Code(c)]
  {
    if !Printable(c) {
      FlattenSnoc(xs, Num(Code(c)));
    } else if EndsQuoted(xs) {
      var m := |xs| - 1;
      var r := xs[m].run;
      assert xs[..m] + [xs[m]] == xs;
      FlattenSnoc(xs[..m], xs[m]);
      FlattenSnoc(xs[..m], Quoted(r + [c]));
      assert Codes(r + [c]) == Codes(r) + [Code(c)];
    } else {
      FlattenSnoc(xs, Quoted([c]));
      assert Codes([c]) == [Code(c)];
    }
  }

  /** The encoder quotes exactly the printable bytes, each maximal
      printable run as one item. */
  lemma {:induction false} ItemsWellFormed(s: string)
    ensures WellFormed(Items(s))
    decreases |s|
  {
    if s != [] {
      var n := |s| - 1;
      var prev := Items(s[..n]);
      var c := s[n];
      ItemsWellFormed(s[..n]);
      ItemsStep(s, n);
      assert s[..n + 1] == s;
      assert Items(s) == Push(prev, c);
      if !Printable(c) {
        WellFormedSnoc(prev, Num(Code(c)));
      } else if EndsQuoted(prev) {
        WellFormedExtend(prev, c);
      } else {
        assert ItemOk(Quoted([c]));
        WellFormedSnoc(prev, Quoted([c]));
      }
    }
  }

  lemma WellFormedSnoc(xs: seq<Item>, x: Item)
    requires WellFormed(xs) && ItemOk(x)
    requires x.Quoted? ==> !EndsQuoted(xs)
    ensures WellFormed(xs + [x])
  {
    var ys := xs + [x];
    assert forall k :: 0 <= k < |xs| ==> ys[k] == xs[k];
  }

  lemma WellFormedExtend(xs: seq<Item>, c: char)
    requires WellFormed(xs) && EndsQuoted(xs) && Printable(c)
    ensures WellFormed(xs[..|xs| - 1] + [Quoted(xs[|xs| - 1].run + [c])])
  {
    var n := |xs| - 1;
    var r := xs[n].run;
    assert ItemOk(xs[n]);
    assert ItemOk(Quoted(r + [c]));
    var ys := xs[..n] + [Quoted(r + [c])];
    assert forall k :: 0 <= k < n ==> ys[k] == xs[k];
  }

  // ---------------------------------------------------------------------
  // Reading the operands back. A `db` operand list is a sequence of
  // items separated by ", ": a double-quoted string, in which "" stands
  // for one double quote (the convention the encoder writes), or a
  // decimal number.
  // ---------------------------------------------------------------------

  /** Reads a quoted item after its opening quote, up to its closing quote. */
  function DecodeQuoted(t: string): (r: Option<(seq<nat>, string)>)
    ensures r.Some? ==> |r.value.1| < |t|
    decreases |t|
  {
    if t == [] then None
    else if t[0] == '"' then
      if |t| >= 2 && t[1] == '"' then
        match DecodeQuoted(t[2..])
        case None => None
        case Some((v, rest)) => Some(([Code('"')] + v, rest))
      else Some(([], t[1..]))
    else
      match DecodeQuoted(t[1..])
      case None => None
      case Some((v, rest)) => Some(([Code(t[0])] + v, rest))
  }

  function DecodeItem(t: string): (r: Option<(seq<nat>, string)>)
    ensures r.Some? ==> |r.value.1| < |t|
  {
    if t != [] && t[0] == '"' then DecodeQuoted(t[1..])
    else
      var k := DigitRun(t);
      if k == 0 then None else Some(([DigitsValue(t[..k])], t[k..]))
  }

  /** The bytes an operand list defines, or None if it is malformed. */
  function DecodeOperands(t: string): Option<seq<nat>>
    decreases |t|
  {
    match DecodeItem(t)
    case None => None
    case Some((v, rest)) =>
      if rest == [] then Some(v)
      else if |rest| >= 2 && rest[..2] == ", " then
        match DecodeOperands(rest[2..])
        case None => None
        case Some(w) => Some(v + w)
      else None
  }

  lemma {:induction false} EscapeCons(c: char, r: string)
    ensures Escape([c] + r) == EscapeChar(c) + Escape(r)
    decreases |r|
  {
    if r != [] {
      var n := |r| - 1;
      assert ([c] + r)[..n + 1] == [c] + r[..n];
      EscapeCons(c, r[..n]);
    } else {
      assert Escape([c]) == EscapeChar(c) by { assert [c][..0] == []; }
    }
  }

  lemma {:induction false} DecodeQuotedEscape(r: string, tail: string)
    requires tail == [] || tail[0] != '"'
    ensures DecodeQuoted(Escape(r) + "\"" + tail) == Some((Codes(r), tail))
    decreases |r|
  {
    if r == [] {
      DecodeQuotedClose(tail);
    } else {
      var c := r[0];
      var t' := Escape(r[1..]) + "\"" + tail;
      EscapeFirst(r, tail);
      DecodeQuotedEscape(r[1..], tail);
      DecodeQuotedChar(c, t');
      CodesCons(r);
    }
  }

  lemma CodesCons(r: string)
    requires r != []
    ensures Codes(r) == [Code(r[0])] + Codes(r[1..])
  {
  }

  lemma DecodeQuotedClose(tail: string)
    requires tail == [] || tail[0] != '"'
    ensures DecodeQuoted(Escape([]) + "\"" + tail) == Some(([], tail))
  {
    var t := Escape([]) + "\"" + tail;
    assert t == "\"" + tail;
    assert t[1..] == tail;
  }

  lemma EscapeFirst(r: string, tail: string)
    requires r != []
    ensures Escape(r) + "\"" + tail == EscapeChar(r[0]) + (Escape(r[1..]) + "\"" + tail)
  {
    assert r == [r[0]] + r[1..];
    EscapeCons(r[0], r[1..]);
  }

  /** One escaped byte in front of a quoted item's remainder. */
  lemma DecodeQuotedChar(c: char, t: string)
    requires DecodeQuoted(t).Some?
    ensures DecodeQuoted(EscapeChar(c) + t)
      == Some(([Code(c)] + DecodeQuoted(t).value.0, DecodeQuoted(t).value.1))
  {
    var u := EscapeChar(c) + t;
    if c == '"' {
      assert u[2..] == t;
    } else {
      assert u[1..] == t;
    }
  }

  lemma DecodeRender(x: Item, tail: string)
    requires tail == [] || tail[0] == ','
    ensures DecodeItem(Render(x) + tail) == Some((ItemCodes(x), tail))
  {
    match x
    case Quoted(r) =>
      DecodeQuotedEscape(r, tail);
      assert (Render(x) + tail)[1..] == Escape(r) + "\"" + tail;
    case Num(b) =>
      var d := NatToString(b);
      DigitRunPrefix(d, tail);
      NatToStringValue(b);
      assert (d + tail)[..|d|] == d && (d + tail)[|d|..] == tail;
  }

  lemma DecodeOperandsLast(t: string, v: seq<nat>)
    requires DecodeItem(t) == Some((v, ""))
    ensures DecodeOperands(t) == Some(v)
  {
  }

  lemma DecodeOperandsNext(t: string, v: seq<nat>, u: string)
    requires DecodeItem(t) == Some((v, ", " + u))
    requires DecodeOperands(u).Some?
    ensures DecodeOperands(t) == Some(v + DecodeOperands(u).value)
  {
    assert (", " + u)[..2] == ", " && (", " + u)[2..] == u;
  }

  lemma JoinTerminated(xs: seq<Item>)
    requires |xs| > 1
    ensures Join(xs) + ", 0" == Render(xs[0]) + (", " + (Join(xs[1..]) + ", 0"))
  {
    var r := Render(xs[0]);
    var j := Join(xs[1..]);
    assert Join(xs) == (r + ", ") + j;
    ConcatAssoc(r + ", ", j, ", 0");
    ConcatAssoc(r, ", ", j + ", 0");
  }

  /** The last item, followed by the terminating 0. */
  lemma DecodeLast(x: Item)
    ensures DecodeOperands(Render(x) + ", 0") == Some(ItemCodes(x) + [0])
  {
    assert Render(x) + ", 0" == Render(x) + (", " + "0");
    DecodeRender(x, ", " + "0");
    assert DecodeItem("0") == Some(([0], "")) by {
      assert DigitRun("0") == 1;
    }
    DecodeOperandsLast("0", [0]);
    DecodeOperandsNext(Render(x) + (", " + "0"), ItemCodes(x), "0");
  }

  /** Reading back the operands of any item list followed by the
      terminating 0 gives the bytes of the items and then 0. */
  lemma {:induction false} DecodeJoin(xs: seq<Item>)
    requires xs != []
    ensures DecodeOperands(Join(xs) + ", 0") == Some(Flatten(xs) + [0])
    decreases |xs|
  {
    if |xs| == 1 {
      DecodeLast(xs[0]);
      assert Flatten(xs) == ItemCodes(xs[0]) by {
        assert xs[1..] == [];
        assert Flatten(xs) == ItemCodes(xs[0]) + Flatten([]);
      }
    } else {
      var u := Join(xs[1..]) + ", 0";
      var t := Join(xs) + ", 0";
      JoinTerminated(xs);
      DecodeRender(xs[0], ", " + u);
      DecodeJoin(xs[1..]);
      DecodeOperandsNext(t, ItemCodes(xs[0]), u);
      ConcatAssoc(ItemCodes(xs[0]), Flatten(xs[1..]), [0]);
    }
  }

  /** The round trip: for a non-empty C string, the operands written
      define exactly its bytes, then the terminating 0. */
  lemma DbStringRoundTrip(s: string)
    requires CStrLen(s) > 0
    ensures DecodeOperands(Body(s) + ", 0") == Some(Codes(s[..CStrLen(s)]) + [0])
  {
    var p := s[..CStrLen(s)];
    ItemsEmpty(p);
    ItemsFlatten(p);
    DecodeJoin(Items(p));
  }

  /** A `"` byte inside a printable run is written twice: a C string
      `a"b` of printable bytes becomes the single operand `"a""b"`.
      `DbStringRoundTrip` reads that back as the three bytes only under the
      doubled-quote convention `DecodeOperands` follows. */
  lemma QuoteWrittenTwice(a: char, b: char)
    requires Printable(a) && Printable(b) && a != '"' && b != '"'
    ensures Body([a, '"', b]) == ['"', a, '"', '"', b, '"']
  {
    var s := [a, '"', b];
    CStrLenAt(s, 3);
    assert s[..CStrLen(s)] == s;
    QuoteItems(s);
    QuoteEscape(a, b);
  }

  lemma QuoteEscape(a: char, b: char)
    requires a != '"' && b != '"'
    ensures Escape([a, '"', b]) == [a, '"', '"', b]
  {
    var s := [a, '"', b];
    assert s[..2] == [a, '"'] && s[..2][..1] == [a] && [a][..0] == [];
    assert Escape([a]) == [a];
    assert Escape(s[..2]) == [a, '"', '"'];
  }

  lemma QuoteItems(s: string)
    requires |s| == 3 && s[1] == '"' && Printable(s[0]) && Printable(s[2])
    ensures Items(s) == [Quoted(s)]
  {
    assert s[..2][..1] == s[..1] && s[..1][..0] == [];
    assert Items(s[..1][..0]) == [] && s[..1] == [s[0]];
    assert Items(s[..1]) == [Quoted(s[..1])];
    assert s[..1] + [s[1]] == s[..2];
    assert Items(s[..2]) == [Quoted(s[..2])];
    assert s[..2] + [s[2]] == s;
  }

  /** For the empty C string nothing precedes the terminator: the line is
      `<name> db , 0`, whose empty first operand does not read back. */
  lemma DbStringEmpty(name: string, s: string)
    requires CStrLen(s) == 0
    ensures DbLine(name, s) == name + " db , 0"
    ensures DecodeOperands(Body(s) + ", 0") == None
  {
    assert s[..0] == [];
    assert Body(s) == "";
    assert DigitRun(", 0") == 0;
  }
}
