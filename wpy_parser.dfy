/** The Python+ parser (interpilers/wpy+/parser.c): a flat scan over the
    token array. Leading `include < name >` groups are checked and may set
    the sticky "pypstdio included" flag; then `func name` is required, and
    every later token is looked at once for `pypstdio.print("...")`, a bare
    `print("...")` or `return x`, which add PRINT and RETURN children to
    the one function node. */
module WpyParser {
  import opened CLib
  import opened WpyTokens
  import opened WpyAst

  // ---------------------------------------------------------------------
  // Specification
  // ---------------------------------------------------------------------

  /** An identifier token with the given text. */
  predicate IsIdent(t: Token, name: string) {
    t.kind == TokenType.Identifier && t.lexeme == name
  }

  /** The include at i is followed by `< identifier >`. */
  predicate IncludeGroupAt(toks: seq<Token>, i: nat) {
    i + 3 < |toks| && toks[i + 1].kind == Lt && toks[i + 2].kind == TokenType.Identifier && toks[i + 3].kind == Gt
  }

  /** The include loop from i with the flag at `flag`: the index where it
      stops (None when a directive is malformed) and the flag it leaves. */
  function Includes(toks: seq<Token>, i: nat, flag: bool): (r: (Option<nat>, bool))
    requires i <= |toks|
    ensures r.0.Some? ==> i <= r.0.value <= |toks| && (r.0.value < |toks| ==> toks[r.0.value].kind != Include)
    ensures flag ==> r.1
    decreases |toks| - i
  {
    if i < |toks| && toks[i].kind == Include then
      if IncludeGroupAt(toks, i) then Includes(toks, i + 4, flag || toks[i + 2].lexeme == "pypstdio")
      else (None, flag)
    else (Some(i), flag)
  }

  /** `func name` at i. */
  predicate HeaderAt(toks: seq<Token>, i: nat) {
    i + 1 < |toks| && toks[i].kind == Func && toks[i + 1].kind == TokenType.Identifier
  }

  /** Iteration j of the body loop refuses `pypstdio` when it was never included. */
  predicate Aborts(toks: seq<Token>, j: nat, flag: bool)
    requires j < |toks|
  {
    IsIdent(toks[j], "pypstdio") && !flag
  }

  /** `pypstdio . print ( "s" )` from j; only the text of the `print`
      token is looked at, not its kind. */
  predicate QualifiedPrintAt(toks: seq<Token>, j: nat) {
    j + 4 < |toks| && IsIdent(toks[j], "pypstdio") && toks[j + 1].kind == Dot
    && toks[j + 2].lexeme == "print" && toks[j + 3].kind == LParen && toks[j + 4].kind == String
  }

  /** `print ( "s" )` from j, not preceded by a dot. */
  predicate BarePrintAt(toks: seq<Token>, j: nat) {
    j + 2 < |toks| && IsIdent(toks[j], "print") && (j == 0 || toks[j - 1].kind != Dot)
    && toks[j + 1].kind == LParen && toks[j + 2].kind == String
  }

  /** `return x` from j. */
  predicate ReturnAt(toks: seq<Token>, j: nat) {
    j + 1 < |toks| && toks[j].kind == TokenType.Return
  }

  /** The children iteration j of the body loop adds (a token is at most
      one of `pypstdio`, `print` and `return`, so the three tests of the
      loop body are exclusive). */
  function Emitted(toks: seq<Token>, j: nat): (r: seq<Node>)
    requires j < |toks|
  {
    if QualifiedPrintAt(toks, j) then [MakeNode(Print, toks[j + 4].lexeme)]
    else if BarePrintAt(toks, j) then [MakeNode(Print, toks[j + 2].lexeme)]
    else if ReturnAt(toks, j) then [MakeNode(NodeType.Return, toks[j + 1].lexeme)]
    else []
  }

  /** The body loop over [lo, hi): the children collected, or None once an
      iteration aborts. */
  function BodyScan(toks: seq<Token>, lo: nat, hi: nat, flag: bool): Option<seq<Node>>
    requires lo <= hi <= |toks|
    decreases hi
  {
    if hi == lo then Some([])
    else
      var prev := BodyScan(toks, lo, hi - 1, flag);
      if prev.None? || Aborts(toks, hi - 1, flag) then None
      else Some(prev.value + Emitted(toks, hi - 1))
  }

  /** One `parse` call with the flag at `flag`: the tree (None for NULL)
      and the flag afterwards. */
  function ParseSpec(toks: seq<Token>, flag: bool): (Option<Node>, bool) {
    if |toks| < 1 then (None, flag)
    else
      var stop, f := Includes(toks, 0, flag).0, Includes(toks, 0, flag).1;
      if stop.None? then (None, f)
      else
        var i := stop.value;
        if i >= |toks| || toks[i].kind != Func then (None, f)
        else if i + 1 >= |toks| || toks[i + 1].kind != TokenType.Identifier then (None, f)
        else
          var body := BodyScan(toks, i + 2, |toks|, f);
          if body.None? then (None, f)
          else (Some(MakeNode(Function, toks[i + 1].lexeme).(children := body.value)), f)
  }

  // ---------------------------------------------------------------------
  // Properties
  // ---------------------------------------------------------------------

  /** The body loop gets through [lo, hi) exactly when no iteration in it
      meets `pypstdio` without the flag. */
  lemma {:induction false} BodyScanDefined(toks: seq<Token>, lo: nat, hi: nat, flag: bool)
    requires lo <= hi <= |toks|
    ensures BodyScan(toks, lo, hi, flag).Some? <==> forall j :: lo <= j < hi ==> !Aborts(toks, j, flag)
    decreases hi
  {
    if hi > lo {
      BodyScanDefined(toks, lo, hi - 1, flag);
    }
  }

  /** `parse` returns a tree exactly when the leading includes are well
      formed, `func name` follows them, and `pypstdio` is used in the body
      only if the flag is set. */
  lemma ParseSucceeds(toks: seq<Token>, flag: bool)
    ensures var stop, f := Includes(toks, 0, flag).0, Includes(toks, 0, flag).1;
      ParseSpec(toks, flag).0.Some? <==>
        && stop.Some? && HeaderAt(toks, stop.value)
        && (f || forall j :: stop.value + 2 <= j < |toks| ==> !IsIdent(toks[j], "pypstdio"))
  {
    var stop, f := Includes(toks, 0, flag).0, Includes(toks, 0, flag).1;
    if stop.Some? && HeaderAt(toks, stop.value) {
      var i := stop.value;
      BodyScanDefined(toks, i + 2, |toks|, f);
      ParseSpecBody(toks, flag, i);
      forall j | i + 2 <= j < |toks|
        ensures !Aborts(toks, j, f) <==> (f || !IsIdent(toks[j], "pypstdio"))
      {
      }
    }
  }

  /** Past the includes and the header, `parse` is the body loop. */
  lemma ParseSpecBody(toks: seq<Token>, flag: bool, i: nat)
    requires Includes(toks, 0, flag).0 == Some(i) && HeaderAt(toks, i)
    ensures ParseSpec(toks, flag).0.Some? <==> BodyScan(toks, i + 2, |toks|, Includes(toks, 0, flag).1).Some?
  {
  }

  /** The include that is not `include < identifier >` makes `parse`
      return NULL, with the flag as the earlier includes left it. */
  lemma {:induction false} MalformedIncludeRejected(toks: seq<Token>, i: nat, flag: bool)
    requires i < |toks| && toks[i].kind == Include && !IncludeGroupAt(toks, i)
    ensures Includes(toks, i, flag) == (None, flag)
  {
  }

  /** One iteration of the body loop that does not abort. */
  lemma BodyStep(toks: seq<Token>, lo: nat, j: nat, flag: bool)
    requires lo <= j < |toks| && BodyScan(toks, lo, j, flag).Some? && !Aborts(toks, j, flag)
    ensures BodyScan(toks, lo, j + 1, flag) == Some(BodyScan(toks, lo, j, flag).value + Emitted(toks, j))
  {
  }

  /** Every children list the body loop builds holds PRINT and RETURN
      leaves only. */
  lemma {:induction false} BodyScanShape(toks: seq<Token>, lo: nat, hi: nat, flag: bool)
    requires lo <= hi <= |toks| && BodyScan(toks, lo, hi, flag).Some?
    ensures forall c :: c in BodyScan(toks, lo, hi, flag).value ==>
      (c.kind == Print || c.kind == NodeType.Return) && c.children == []
    decreases hi
  {
    if hi > lo {
      BodyScanShape(toks, lo, hi - 1, flag);
    }
  }

  /** A successful parse is one FUNCTION node named by the token after
      `func`, whose children are PRINT and RETURN leaves. */
  lemma ParseShape(toks: seq<Token>, flag: bool)
    requires ParseSpec(toks, flag).0.Some?
    ensures var n := ParseSpec(toks, flag).0.value;
      var i := Includes(toks, 0, flag).0.value;
      && HeaderAt(toks, i) && n.kind == Function && n.value == toks[i + 1].lexeme
      && forall c :: c in n.children ==> (c.kind == Print || c.kind == NodeType.Return) && c.children == []
  {
    var i := Includes(toks, 0, flag).0.value;
    BodyScanShape(toks, i + 2, |toks|, Includes(toks, 0, flag).1);
  }

  /** At most one child per token. */
  lemma EmittedAtMostOne(toks: seq<Token>, j: nat)
    requires j < |toks|
    ensures |Emitted(toks, j)| <= 1
    ensures |Emitted(toks, j)| == 1 <==> QualifiedPrintAt(toks, j) || BarePrintAt(toks, j) || ReturnAt(toks, j)
  {
  }

  /** The indices in [lo, hi) whose iteration adds a child, in order. */
  function Sites(toks: seq<Token>, lo: nat, hi: nat): (r: seq<nat>)
    requires lo <= hi <= |toks|
    ensures forall k :: 0 <= k < |r| ==> lo <= r[k] < hi && |Emitted(toks, r[k])| == 1
    ensures forall k, m :: 0 <= k < m < |r| ==> r[k] < r[m]
    decreases hi
  {
    if hi == lo then []
    else if QualifiedPrintAt(toks, hi - 1) || BarePrintAt(toks, hi - 1) || ReturnAt(toks, hi - 1) then
      Sites(toks, lo, hi - 1) + [hi - 1]
    else Sites(toks, lo, hi - 1)
  }

  /** The children are, in token order, the node found at each site. */
  lemma {:induction false} ChildrenInTokenOrder(toks: seq<Token>, lo: nat, hi: nat, flag: bool)
    requires lo <= hi <= |toks| && BodyScan(toks, lo, hi, flag).Some?
    ensures var ns := BodyScan(toks, lo, hi, flag).value;
      var ss := Sites(toks, lo, hi);
      |ns| == |ss| && forall k :: 0 <= k < |ns| ==> ns[k] == Emitted(toks, ss[k])[0]
    decreases hi
  {
    if hi > lo {
      ChildrenInTokenOrder(toks, lo, hi - 1, flag);
      EmittedAtMostOne(toks, hi - 1);
      var ns := BodyScan(toks, lo, hi - 1, flag).value;
      var e := Emitted(toks, hi - 1);
      assert BodyScan(toks, lo, hi, flag).value == ns + e;
      if e == [] {
        assert ns + e == ns;
        assert Sites(toks, lo, hi) == Sites(toks, lo, hi - 1);
      } else {
        var ss := Sites(toks, lo, hi - 1);
        assert Sites(toks, lo, hi) == ss + [hi - 1];
        forall k | 0 <= k < |ns| + 1
          ensures (ns + e)[k] == Emitted(toks, (ss + [hi - 1])[k])[0]
        {
          if k < |ns| {
            assert (ns + e)[k] == ns[k] && (ss + [hi - 1])[k] == ss[k];
          }
        }
      }
    }
  }

  /** `pypstdio.print("s")` with the flag set adds exactly one PRINT node
      carrying s: the `print` inside it follows a dot, so the bare-print
      rule does not fire a second time. */
  lemma QualifiedPrintOnce(toks: seq<Token>, lo: nat, j: nat, flag: bool)
    requires lo <= j && j + 5 <= |toks| && flag
    requires IsIdent(toks[j], "pypstdio") && toks[j + 1].kind == Dot && IsIdent(toks[j + 2], "print")
    requires toks[j + 3].kind == LParen && toks[j + 4].kind == String
    requires BodyScan(toks, lo, j, flag).Some?
    ensures BodyScan(toks, lo, j + 5, flag) == Some(BodyScan(toks, lo, j, flag).value + [MakeNode(Print, toks[j + 4].lexeme)])
  {
    var ns := BodyScan(toks, lo, j, flag).value + [MakeNode(Print, toks[j + 4].lexeme)];
    assert Emitted(toks, j) == [MakeNode(Print, toks[j + 4].lexeme)];
    assert BodyScan(toks, lo, j + 1, flag) == Some(ns);
    assert ns + [] == ns;
    assert !IsIdent(toks[j + 1], "pypstdio") && Emitted(toks, j + 1) == [];
    assert BodyScan(toks, lo, j + 2, flag) == Some(ns);
    assert !IsIdent(toks[j + 2], "pypstdio") && Emitted(toks, j + 2) == [];
    assert BodyScan(toks, lo, j + 3, flag) == Some(ns);
    assert !IsIdent(toks[j + 3], "pypstdio") && Emitted(toks, j + 3) == [];
    assert BodyScan(toks, lo, j + 4, flag) == Some(ns);
    assert !IsIdent(toks[j + 4], "pypstdio") && Emitted(toks, j + 4) == [];
  }

  /** Every `return x` in the body gives a RETURN child carrying the text
      of x. */
  lemma {:induction false} ReturnRecorded(toks: seq<Token>, lo: nat, hi: nat, flag: bool, j: nat)
    requires lo <= j < hi <= |toks| && ReturnAt(toks, j)
    requires BodyScan(toks, lo, hi, flag).Some?
    ensures MakeNode(NodeType.Return, toks[j + 1].lexeme) in BodyScan(toks, lo, hi, flag).value
    decreases hi
  {
    if j < hi - 1 {
      ReturnRecorded(toks, lo, hi - 1, flag, j);
    } else {
      assert Emitted(toks, j) == [MakeNode(NodeType.Return, toks[j + 1].lexeme)];
    }
  }

  /** Once set, the flag stays set: a later `parse` accepts `pypstdio`
      without an include of its own. */
  lemma {:induction false} FlagSticky(first: seq<Token>, second: seq<Token>, flag: bool)
    requires ParseSpec(first, flag).1
    ensures ParseSpec(second, ParseSpec(first, flag).1).1
    ensures ParseSpec(second, ParseSpec(first, flag).1).0.Some? <==>
      var stop := Includes(second, 0, true).0;
      stop.Some? && HeaderAt(second, stop.value)
  {
    ParseSucceeds(second, true);
    if |second| >= 1 {
      assert Includes(second, 0, true).1;
    }
  }

  /** An INCLUDE token directly followed by `func` (what the lexer makes of
      `#include<name>` followed by a function) is a malformed directive:
      `parse` returns NULL and leaves the flag alone. */
  lemma FoldedIncludeRejected(toks: seq<Token>, flag: bool)
    requires |toks| >= 2 && toks[0].kind == Include && toks[1].kind == Func
    ensures ParseSpec(toks, flag) == (None, flag)
  {
    assert !IncludeGroupAt(toks, 0);
  }

  /** An INCLUDE token followed by `< pypstdio >` is an include group naming
      pypstdio. */
  predicate NamesPypstdio(toks: seq<Token>, k: nat) {
    k < |toks| && toks[k].kind == Include && IncludeGroupAt(toks, k) && toks[k + 2].lexeme == "pypstdio"
  }

  /** An INCLUDE followed by `< pypstdio >` and then `func name` is
      accepted, and it sets the flag. */
  lemma IncludeGroupSetsFlag(toks: seq<Token>, flag: bool)
    requires NamesPypstdio(toks, 0) && HeaderAt(toks, 4)
    ensures ParseSpec(toks, flag).0.Some? && ParseSpec(toks, flag).1
  {
    assert toks[4].kind != Include;
    assert Includes(toks, 4, true) == (Some(4), true);
    assert Includes(toks, 0, flag) == (Some(4), true);
    ParseSucceeds(toks, flag);
  }

  /** Such a group is the only way the include loop sets the flag. */
  lemma {:induction false} IncludesFlagSource(toks: seq<Token>, i: nat, flag: bool)
    requires i <= |toks|
    ensures Includes(toks, i, flag).1 ==> flag || exists k :: i <= k && NamesPypstdio(toks, k)
    decreases |toks| - i
  {
    if i < |toks| && toks[i].kind == Include && IncludeGroupAt(toks, i) {
      var f := flag || toks[i + 2].lexeme == "pypstdio";
      IncludesFlagSource(toks, i + 4, f);
      if !flag && f {
        assert NamesPypstdio(toks, i);
      }
    }
  }

  /** So `parse` sets the flag only when an include group names pypstdio. */
  lemma OnlyIncludeGroupSetsFlag(toks: seq<Token>)
    ensures ParseSpec(toks, false).1 ==> exists k :: NamesPypstdio(toks, k)
  {
    if |toks| >= 1 {
      IncludesFlagSource(toks, 0, false);
    }
  }

  // ---------------------------------------------------------------------
  // The parser state
  // ---------------------------------------------------------------------

  class Parser {
    /** `has_pypstdio`, which no call resets. */
    var hasPypstdio: bool

    constructor ()
      ensures !hasPypstdio
    {
      hasPypstdio := false;
    }

    /** The include loop of `parse`: where it stops (None when a
        directive is malformed), with the flag updated on the way. */
    method ParseIncludes(toks: seq<Token>) returns (stop: Option<nat>)
      modifies this
      ensures (stop, hasPypstdio) == Includes(toks, 0, old(hasPypstdio))
    {
      var i: nat := 0;
      while i < |toks| && toks[i].kind == Include
        invariant i <= |toks|
        invariant Includes(toks, i, hasPypstdio) == Includes(toks, 0, old(hasPypstdio))
        decreases |toks| - i
      {
        if i + 3 < |toks| && toks[i + 1].kind == Lt && toks[i + 2].kind == TokenType.Identifier && toks[i + 3].kind == Gt {
          if toks[i + 2].lexeme == "pypstdio" {
            hasPypstdio := true;
          }
          i := i + 4;
        } else {
          return None;
        }
      }
      return Some(i);
    }

    /** The body loop of `parse` over the tokens from lo: the children
        found, or None when `pypstdio` is met without the flag. */
    method ParseBody(toks: seq<Token>, lo: nat) returns (children: Option<seq<Node>>)
      requires lo <= |toks|
      ensures children == BodyScan(toks, lo, |toks|, hasPypstdio)
    {
      var found: seq<Node> := [];
      var j: nat := lo;
      while j < |toks|
        invariant lo <= j <= |toks|
        invariant BodyScan(toks, lo, j, hasPypstdio) == Some(found)
      {
        ghost var before := found;
        if toks[j].kind == TokenType.Identifier && toks[j].lexeme == "pypstdio" {
          if !hasPypstdio {
            assert Aborts(toks, j, hasPypstdio);
            BodyScanDefined(toks, lo, |toks|, hasPypstdio);
            return None;
          }
          if j + 2 < |toks| && toks[j + 1].kind == Dot && toks[j + 2].lexeme == "print" {
            if j + 4 < |toks| && toks[j + 3].kind == LParen && toks[j + 4].kind == String {
              found := found + [MakeNode(Print, toks[j + 4].lexeme)];
            }
          }
        }
        if toks[j].kind == TokenType.Identifier && toks[j].lexeme == "print" {
          if (j == 0 || toks[j - 1].kind != Dot) && j + 2 < |toks|
            && toks[j + 1].kind == LParen && toks[j + 2].kind == String
          {
            found := found + [MakeNode(Print, toks[j + 2].lexeme)];
          }
        }
        if toks[j].kind == TokenType.Return && j + 1 < |toks| {
          found := found + [MakeNode(NodeType.Return, toks[j + 1].lexeme)];
        }
        assert found == before + Emitted(toks, j);
        BodyStep(toks, lo, j, hasPypstdio);
        j := j + 1;
      }
      return Some(found);
    }

    /** `parse`. */
    method Parse(toks: seq<Token>) returns (r: Option<Node>)
      modifies this
      ensures (r, hasPypstdio) == ParseSpec(toks, old(hasPypstdio))
    {
      if |toks| < 1 {
        return None;
      }
      var stop := ParseIncludes(toks);
      if stop.None? {
        return None;
      }
      var i := stop.value;
      if i >= |toks| || toks[i].kind != Func {
        return None;
      }
      if i + 1 >= |toks| || toks[i + 1].kind != TokenType.Identifier {
        return None;
      }
      var name := toks[i + 1].lexeme;
      var children := ParseBody(toks, i + 2);
      if children.None? {
        return None;
      }
      r := Some(MakeNode(Function, name).(children := children.value));
    }
  }
}
