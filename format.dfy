/** `console.format`, the printf-style formatter the adapter installs (a port
    of node's `util.format`).

    The formatter is specified in three layers. `Tokenize` is the scan that
    the global regular expression /%[sdj%]/ performs over the format string;
    `Pieces` is what the replace callback puts in place of each token, with the
    argument cursor it advances; `Formatted` adds the leftover arguments or, for
    a non-string first argument, JSON-joins everything. `ConsoleFormat` is the
    formatter as the source writes it, with its three loops, proved equal to
    `Formatted`. */
module Format {
  import opened JsValue

  /** The host conversions the formatter relies on, left uninterpreted:
      `toString` is String(v), `toNumber` is the text of Number(v) (the replace
      callback returns a number, which replace turns into text), and
      `stringify` is JSON.stringify(v), which yields `undefined` (None) for
      some values. */
  datatype Conversions = Conversions(
    toString: Value -> string,
    toNumber: Value -> string,
    stringify: Value -> Option<string>)

  /** JSON.stringify(v) where the result is turned into text: `undefined`
      becomes "undefined", as in a replace callback or a string concatenation. */
  function JsonText(v: Value, conv: Conversions): string
  {
    match conv.stringify(v)
    case Some(t) => t
    case None => "undefined"
  }

  /** JSON.stringify(v) as an element of Array.prototype.join, which renders an
      `undefined` element as the empty string. */
  function JoinText(v: Value, conv: Conversions): string
  {
    match conv.stringify(v)
    case Some(t) => t
    case None => ""
  }

  /** How a leftover argument is appended: null and non-objects by plain string
      conversion, objects by JSON. */
  function PlainText(v: Value, conv: Conversions): string
  {
    if v.Null? || !IsObjectType(v) then conv.toString(v) else JsonText(v, conv)
  }

  // ---------------------------------------------------------------------------
  // Scanning the format string

  datatype Placeholder = S | D | J

  /** What the regular expression matches at a position: a two-character
      directive (`%s`, `%d`, `%j` or `%%`) or, failing that, one character. */
  datatype Token = Lit(c: char) | Escape | Hole(p: Placeholder)

  function Directive(p: Placeholder): string
  {
    match p
    case S => "%s"
    case D => "%d"
    case J => "%j"
  }

  predicate IsDirectiveChar(c: char)
  {
    c == 's' || c == 'd' || c == 'j' || c == '%'
  }

  function TokenFor(c: char): Token
    requires IsDirectiveChar(c)
  {
    if c == '%' then Escape else if c == 's' then Hole(S) else if c == 'd' then Hole(D) else Hole(J)
  }

  /** The non-overlapping left-to-right matches of /%[sdj%]/g, with every
      character outside a match kept as a literal. */
  function Tokenize(f: string): (ts: seq<Token>)
    ensures |ts| <= |f|
    decreases |f|
  {
    if f == [] then []
    else if f[0] == '%' && |f| >= 2 && IsDirectiveChar(f[1]) then [TokenFor(f[1])] + Tokenize(f[2..])
    else [Lit(f[0])] + Tokenize(f[1..])
  }

  function Untokenize(ts: seq<Token>): string
  {
    if ts == [] then ""
    else
      (match ts[0]
       case Lit(c) => [c]
       case Escape => "%%"
       case Hole(p) => Directive(p)) + Untokenize(ts[1..])
  }

  /** Scanning loses nothing: the tokens spell the format string again. */
  lemma {:induction false} UntokenizeTokenize(f: string)
    ensures Untokenize(Tokenize(f)) == f
    decreases |f|
  {
    if f != [] {
      var ts := Tokenize(f);
      if f[0] == '%' && |f| >= 2 && IsDirectiveChar(f[1]) {
        UntokenizeTokenize(f[2..]);
        assert ts[1..] == Tokenize(f[2..]);
        assert f == f[..2] + f[2..];
      } else {
        UntokenizeTokenize(f[1..]);
        assert ts[1..] == Tokenize(f[1..]);
        assert f == [f[0]] + f[1..];
      }
    }
  }

  /** A `%` kept as a literal is either the last token or followed by a
      literal that is not `s`, `d`, `j` or `%`. */
  predicate NoPercentBeforeDirective(ts: seq<Token>)
  {
    forall k :: 0 <= k < |ts| - 1 && ts[k] == Lit('%') ==>
      ts[k + 1].Lit? && !IsDirectiveChar(ts[k + 1].c)
  }

  /** The scan misses no directive. With the round trip above, this pins down
      which `%` the scan matches. */
  lemma {:induction false} NoMissedDirective(f: string)
    ensures NoPercentBeforeDirective(Tokenize(f))
    decreases |f|
  {
    if f != [] {
      var ts := Tokenize(f);
      var rest := if f[0] == '%' && |f| >= 2 && IsDirectiveChar(f[1]) then f[2..] else f[1..];
      var tail := Tokenize(rest);
      assert ts[1..] == tail;
      NoMissedDirective(rest);
      forall k | 0 <= k < |ts| - 1 && ts[k] == Lit('%')
        ensures ts[k + 1].Lit? && !IsDirectiveChar(ts[k + 1].c)
      {
        if k == 0 {
          assert |f| >= 2 && f[1..][0] == f[1] && !IsDirectiveChar(f[1]);
          assert tail[0] == Lit(f[1]);
        } else {
          assert ts[1..][k - 1] == ts[k] && ts[1..][k] == ts[k + 1];
          assert 0 <= k - 1 < |tail| - 1 && tail[k - 1] == Lit('%');
          assert tail[k].Lit? && !IsDirectiveChar(tail[k].c);
        }
      }
    }
  }

  /** A `%` followed by any character but `s`, `d`, `j` or `%` is not a
      directive: it is copied, and scanning resumes at the next character. */
  lemma UnknownDirectiveCopied(c: char, rest: string)
    requires !IsDirectiveChar(c)
    ensures Tokenize(['%', c] + rest) == [Lit('%')] + Tokenize([c] + rest)
  {
    assert (['%', c] + rest)[1..] == [c] + rest;
  }

  /** The number of `%s`, `%d` and `%j` placeholders (`%%` is not one). */
  function Holes(ts: seq<Token>): nat
  {
    if ts == [] then 0 else (if ts[0].Hole? then 1 else 0) + Holes(ts[1..])
  }

  // ---------------------------------------------------------------------------
  // The replace callback

  /** The replacement for a placeholder that consumes argument `v`. */
  function Render(p: Placeholder, v: Value, conv: Conversions): string
  {
    match p
    case S => conv.toString(v)
    case D => conv.toNumber(v)
    case J => JsonText(v, conv)
  }

  /** What the callback returns for each token, one piece per token, with the
      argument cursor starting at `i`: `%%` is a single `%` whatever the
      cursor, a placeholder consumes `args[i]`, and once the cursor has reached
      the end a placeholder stays as written. */
  function Pieces(ts: seq<Token>, args: seq<Value>, i: nat, conv: Conversions): (ps: seq<string>)
    ensures |ps| == |ts|
  {
    if ts == [] then []
    else match ts[0]
      case Lit(c) => [[c]] + Pieces(ts[1..], args, i, conv)
      case Escape => ["%"] + Pieces(ts[1..], args, i, conv)
      case Hole(p) =>
        if i >= |args| then [Directive(p)] + Pieces(ts[1..], args, i, conv)
        else [Render(p, args[i], conv)] + Pieces(ts[1..], args, i + 1, conv)
  }

  /** The argument cursor once every token has been replaced: each placeholder
      advanced it by one until it reached the argument count. */
  function Cursor(ts: seq<Token>, args: seq<Value>, i: nat): (j: nat)
    ensures i >= |args| ==> j == i
    ensures i < |args| ==> j == if i + Holes(ts) < |args| then i + Holes(ts) else |args|
  {
    if ts == [] then i
    else if ts[0].Hole? && i < |args| then Cursor(ts[1..], args, i + 1)
    else Cursor(ts[1..], args, i)
  }

  /** Piece k of the replacement, in terms of the tokens before it: the
      placeholders before token k have consumed the arguments from `i` on, one
      each, so a placeholder at k renders argument `i + Holes(ts[..k])`, or
      stays as written if there is no such argument. */
  lemma {:induction false} PieceAt(ts: seq<Token>, args: seq<Value>, i: nat, conv: Conversions, k: nat)
    requires k < |ts|
    ensures ts[k].Lit? ==> Pieces(ts, args, i, conv)[k] == [ts[k].c]
    ensures ts[k].Escape? ==> Pieces(ts, args, i, conv)[k] == "%"
    ensures ts[k].Hole? ==>
              Pieces(ts, args, i, conv)[k]
              == if i + Holes(ts[..k]) < |args| then Render(ts[k].p, args[i + Holes(ts[..k])], conv)
                 else Directive(ts[k].p)
    decreases k
  {
    if k > 0 {
      var j := if ts[0].Hole? && i < |args| then i + 1 else i;
      PieceAt(ts[1..], args, j, conv, k - 1);
      assert ts[..k][1..] == ts[1..][..k - 1];
      assert Holes(ts[..k]) == (if ts[0].Hole? then 1 else 0) + Holes(ts[1..][..k - 1]);
    }
  }

  /** `%%` at the head becomes one `%` and leaves the cursor where it was,
      even when the arguments are exhausted. */
  lemma EscapeAtHead(rest: string, args: seq<Value>, i: nat, conv: Conversions)
    ensures Pieces(Tokenize("%%" + rest), args, i, conv) == ["%"] + Pieces(Tokenize(rest), args, i, conv)
    ensures Cursor(Tokenize("%%" + rest), args, i) == Cursor(Tokenize(rest), args, i)
  {
    assert ("%%" + rest)[2..] == rest;
  }

  // ---------------------------------------------------------------------------
  // Assembling the result

  function Flatten(ps: seq<string>): string
  {
    if ps == [] then "" else ps[0] + Flatten(ps[1..])
  }

  /** Each text preceded by exactly one space, in order. */
  function Spaced(xs: seq<string>): string
  {
    if xs == [] then "" else Spaced(xs[..|xs| - 1]) + " " + xs[|xs| - 1]
  }

  /** Array.prototype.join(' '): the first element, then a space and the next
      element for each further one. */
  function Join(xs: seq<string>): string
  {
    if |xs| <= 1 then (if xs == [] then "" else xs[0])
    else Join(xs[..|xs| - 1]) + " " + xs[|xs| - 1]
  }

  function JsonTexts(args: seq<Value>, conv: Conversions): (r: seq<string>)
    ensures |r| == |args|
    ensures forall k :: 0 <= k < |args| ==> r[k] == JoinText(args[k], conv)
  {
    if args == [] then [] else JsonTexts(args[..|args| - 1], conv) + [JoinText(args[|args| - 1], conv)]
  }

  function PlainTexts(args: seq<Value>, conv: Conversions): (r: seq<string>)
    ensures |r| == |args|
    ensures forall k :: 0 <= k < |args| ==> r[k] == PlainText(args[k], conv)
  {
    if args == [] then [] else PlainTexts(args[..|args| - 1], conv) + [PlainText(args[|args| - 1], conv)]
  }

  /** console.format(args[0], args[1], ...). */
  function Formatted(args: seq<Value>, conv: Conversions): string
  {
    if args == [] || !args[0].Str? then Join(JsonTexts(args, conv))
    else
      var ts := Tokenize(args[0].s);
      Flatten(Pieces(ts, args, 1, conv)) + Spaced(PlainTexts(args[Cursor(ts, args, 1)..], conv))
  }

  lemma {:induction false} JoinIsSpaced(xs: seq<string>)
    requires xs != []
    ensures Join(xs) == xs[0] + Spaced(xs[1..])
    decreases |xs|
  {
    if |xs| > 1 {
      var init := xs[..|xs| - 1];
      JoinIsSpaced(init);
      assert init[1..] == xs[1..][..|xs[1..]| - 1];
    } else {
      assert xs[1..] == [];
    }
  }

  /** A first argument that is not a string turns off placeholder processing:
      the result is the JSON of every argument, in order, separated by single
      spaces (with `undefined` JSON rendered empty, as join does). */
  lemma NonStringFallback(args: seq<Value>, conv: Conversions)
    requires args == [] || !args[0].Str?
    ensures args == [] ==> Formatted(args, conv) == ""
    ensures args != [] ==> Formatted(args, conv) == JoinText(args[0], conv) + Spaced(JsonTexts(args[1..], conv))
  {
    if args != [] {
      var texts := JsonTexts(args, conv);
      JoinIsSpaced(texts);
      assert texts[1..] == JsonTexts(args[1..], conv);
    }
  }

  /** With the cursor past the end and no `%%`, the replacement rebuilds the
      format string unchanged. */
  lemma {:induction false} VerbatimPieces(ts: seq<Token>, args: seq<Value>, i: nat, conv: Conversions)
    requires i >= |args| && Escape !in ts
    ensures Flatten(Pieces(ts, args, i, conv)) == Untokenize(ts)
    decreases |ts|
  {
    if ts != [] {
      assert ts[0] != Escape;
      assert Escape !in ts[1..];
      VerbatimPieces(ts[1..], args, i, conv);
    }
  }

  /** A lone format string without `%%` comes back unchanged: its placeholders
      have no argument to consume and are left verbatim. */
  lemma SingleArgumentIdentity(f: string, conv: Conversions)
    requires Escape !in Tokenize(f)
    ensures Formatted([Str(f)], conv) == f
  {
    var ts := Tokenize(f);
    VerbatimPieces(ts, [Str(f)], 1, conv);
    UntokenizeTokenize(f);
    assert [Str(f)][1..] == [];
  }

  /** The leftover arguments: exactly those after the last consumed one, that
      is all but the first min(placeholders, argc - 1), appended in order. */
  lemma LeftoverArguments(args: seq<Value>, conv: Conversions)
    requires args != [] && args[0].Str?
    ensures var ts := Tokenize(args[0].s);
            var used := if Holes(ts) < |args| - 1 then Holes(ts) else |args| - 1;
            Formatted(args, conv) == Flatten(Pieces(ts, args, 1, conv)) + Spaced(PlainTexts(args[1 + used..], conv))
  {
  }

  lemma TokensOfTwoPlaceholders()
    ensures Tokenize("%s and %d") == [Hole(S), Lit(' '), Lit('a'), Lit('n'), Lit('d'), Lit(' '), Hole(D)]
  {
    var f := "%s and %d";
    assert f[7..] == "%d" && f[7..][2..] == [];
    assert Tokenize(f[7..]) == [Hole(D)];
    assert f[6..][1..] == f[7..];
    assert Tokenize(f[6..]) == [Lit(' '), Hole(D)];
    assert f[5..][1..] == f[6..];
    assert Tokenize(f[5..]) == [Lit('d'), Lit(' '), Hole(D)];
    assert f[4..][1..] == f[5..];
    assert Tokenize(f[4..]) == [Lit('n'), Lit('d'), Lit(' '), Hole(D)];
    assert f[3..][1..] == f[4..];
    assert Tokenize(f[3..]) == [Lit('a'), Lit('n'), Lit('d'), Lit(' '), Hole(D)];
    assert f[2..][1..] == f[3..];
  }

  lemma PiecesOfTwoPlaceholders(args: seq<Value>, conv: Conversions)
    requires |args| == 3 && conv.toString(args[1]) == "a" && conv.toNumber(args[2]) == "2"
    ensures var ts := [Hole(S), Lit(' '), Lit('a'), Lit('n'), Lit('d'), Lit(' '), Hole(D)];
            Pieces(ts, args, 1, conv) == ["a", " ", "a", "n", "d", " ", "2"] && Holes(ts) == 2
  {
    var ts := [Hole(S), Lit(' '), Lit('a'), Lit('n'), Lit('d'), Lit(' '), Hole(D)];
    assert ts[6..] == [Hole(D)] && ts[6..][1..] == [];
    assert Pieces(ts[6..], args, 2, conv) == ["2"] && Holes(ts[6..]) == 1;
    assert ts[5..][1..] == ts[6..];
    assert Pieces(ts[5..], args, 2, conv) == [" ", "2"] && Holes(ts[5..]) == 1;
    assert ts[4..][1..] == ts[5..];
    assert Pieces(ts[4..], args, 2, conv) == ["d", " ", "2"] && Holes(ts[4..]) == 1;
    assert ts[3..][1..] == ts[4..];
    assert Pieces(ts[3..], args, 2, conv) == ["n", "d", " ", "2"] && Holes(ts[3..]) == 1;
    assert ts[2..][1..] == ts[3..];
    assert Pieces(ts[2..], args, 2, conv) == ["a", "n", "d", " ", "2"] && Holes(ts[2..]) == 1;
    assert ts[1..][1..] == ts[2..];
    assert Pieces(ts[1..], args, 2, conv) == [" ", "a", "n", "d", " ", "2"] && Holes(ts[1..]) == 1;
  }

  lemma FlattenOfTwoPlaceholders()
    ensures Flatten(["a", " ", "a", "n", "d", " ", "2"]) == "a and 2"
  {
    var ps := ["a", " ", "a", "n", "d", " ", "2"];
    assert ps[7..] == [];
    assert ps[6..][1..] == ps[7..];
    assert Flatten(ps[6..]) == "2";
    assert ps[5..][1..] == ps[6..];
    assert Flatten(ps[5..]) == " 2";
    assert ps[4..][1..] == ps[5..];
    assert Flatten(ps[4..]) == "d 2";
    assert ps[3..][1..] == ps[4..];
    assert Flatten(ps[3..]) == "nd 2";
    assert ps[2..][1..] == ps[3..];
    assert Flatten(ps[2..]) == "and 2";
    assert ps[1..][1..] == ps[2..];
    assert Flatten(ps[1..]) == " and 2";
    assert ps[0..][1..] == ps[1..];
    assert Flatten(ps[0..]) == "a and 2";
    assert ps[0..] == ps;
  }

  /** A worked case: two placeholders, each consuming one argument in turn,
      for any host whose String and Number render these arguments as usual. */
  lemma FormatExampleTwoPlaceholders(conv: Conversions)
    requires conv.toString(Str("a")) == "a" && conv.toNumber(Num(2.0)) == "2"
    ensures Formatted([Str("%s and %d"), Str("a"), Num(2.0)], conv) == "a and 2"
  {
    TokensOfTwoPlaceholders();
    PiecesOfTwoPlaceholders([Str("%s and %d"), Str("a"), Num(2.0)], conv);
    FlattenOfTwoPlaceholders();
  }

  /** A worked case: `%j` renders its argument as JSON. */
  lemma FormatExampleJson(conv: Conversions)
    requires conv.stringify(Obj(0)) == Some("{\"a\":1}")
    ensures Formatted([Str("%j"), Obj(0)], conv) == "{\"a\":1}"
  {
    var json := "{\"a\":1}";
    assert "%j"[2..] == [];
    assert Tokenize("%j") == [Hole(J)];
    assert [Hole(J)][1..] == [];
    assert Pieces([Hole(J)], [Str("%j"), Obj(0)], 1, conv) == [json];
    assert [json][1..] == [];
    assert Flatten([json]) == json;
  }

  /** A worked case: a lone `%%` is one percent sign. */
  lemma FormatExampleEscape(conv: Conversions)
    ensures Formatted([Str("%%")], conv) == "%"
  {
    assert "%%"[2..] == [];
    assert Tokenize("%%") == [Escape];
    assert [Escape][1..] == [];
    assert Pieces([Escape], [Str("%%")], 1, conv) == ["%"];
    assert ["%"][1..] == [];
    assert Flatten(["%"]) == "%";
  }

  lemma PiecesOfLeftover(args: seq<Value>, conv: Conversions)
    requires |args| == 3 && conv.toString(args[1]) == "a"
    ensures Tokenize("%s%%") == [Hole(S), Escape]
    ensures Flatten(Pieces([Hole(S), Escape], args, 1, conv)) == "a%"
    ensures Cursor([Hole(S), Escape], args, 1) == 2
  {
    var ts := [Hole(S), Escape];
    assert "%s%%"[2..] == "%%" && "%%"[2..] == [];
    assert ts[1..] == [Escape] && [Escape][1..] == [];
    assert Pieces(ts, args, 1, conv) == ["a", "%"];
    assert ["a", "%"][1..] == ["%"] && ["%"][1..] == [];
    assert Holes(ts) == 1;
  }

  lemma SpacedSingle(x: string)
    ensures Spaced([x]) == " " + x
  {
    assert [x][..0] == [];
  }

  lemma TailOfLeftover(args: seq<Value>, json: string, conv: Conversions)
    requires |args| == 3 && args[2] == Obj(0) && conv.stringify(Obj(0)) == Some(json)
    ensures Spaced(PlainTexts(args[2..], conv)) == " " + json
  {
    assert PlainTexts(args[2..], conv) == [json] by {
      assert args[2..] == [Obj(0)];
      assert [Obj(0)][..0] == [];
    }
    SpacedSingle(json);
  }

  /** A worked case: an object argument left over is appended as JSON after
      one space. */
  lemma FormatExampleLeftover(conv: Conversions)
    requires conv.toString(Str("a")) == "a"
    requires conv.stringify(Obj(0)) == Some("{\"a\":1}")
    ensures Formatted([Str("%s%%"), Str("a"), Obj(0)], conv) == "a% {\"a\":1}"
  {
    var args := [Str("%s%%"), Str("a"), Obj(0)];
    PiecesOfLeftover(args, conv);
    TailOfLeftover(args, "{\"a\":1}", conv);
  }

  // ---------------------------------------------------------------------------
  // The formatter as written

  lemma FlattenCons(x: string, rest: seq<string>)
    ensures Flatten([x] + rest) == x + Flatten(rest)
  {
    assert ([x] + rest)[1..] == rest;
  }

  lemma Associate(a: string, b: string, c: string)
    ensures (a + b) + c == a + (b + c)
  {
  }

  /** One step of the scan at position p of the format string. */
  lemma TokenizeAt(f: string, p: nat)
    requires p < |f|
    ensures f[p] == '%' && p + 1 < |f| && IsDirectiveChar(f[p + 1]) ==>
              Tokenize(f[p..]) == [TokenFor(f[p + 1])] + Tokenize(f[p + 2..])
    ensures !(f[p] == '%' && p + 1 < |f| && IsDirectiveChar(f[p + 1])) ==>
              Tokenize(f[p..]) == [Lit(f[p])] + Tokenize(f[p + 1..])
  {
    if f[p] == '%' && p + 1 < |f| && IsDirectiveChar(f[p + 1]) {
      assert f[p..][2..] == f[p + 2..];
    } else {
      assert f[p..][1..] == f[p + 1..];
    }
  }

  /** mocha-casperjs.js:77-81: JSON.stringify every argument, then join with spaces. */
  method JsonJoin(args: seq<Value>, conv: Conversions) returns (str: string)
    ensures str == Join(JsonTexts(args, conv))
  {
    var objects: seq<string> := [];
    var k := 0;
    while k < |args|
      invariant 0 <= k <= |args|
      invariant objects == JsonTexts(args[..k], conv)
    {
      assert args[..k + 1][..k] == args[..k];
      objects := objects + [JoinText(args[k], conv)];
      k := k + 1;
    }
    assert args[..|args|] == args;
    str := Join(objects);
  }

  /** The scan consuming a directive at position p: the callback's piece for
      it, then the rest of the string with the cursor it leaves. */
  lemma DirectiveStep(f: string, p: nat, args: seq<Value>, i: nat, piece: string, i': nat, conv: Conversions)
    requires p + 1 < |f| && f[p] == '%' && IsDirectiveChar(f[p + 1])
    requires piece == if f[p + 1] == '%' then "%"
                      else if i >= |args| then f[p..p + 2]
                      else Render(TokenFor(f[p + 1]).p, args[i], conv)
    requires i' == if f[p + 1] != '%' && i < |args| then i + 1 else i
    ensures Flatten(Pieces(Tokenize(f[p..]), args, i, conv)) == piece + Flatten(Pieces(Tokenize(f[p + 2..]), args, i', conv))
    ensures Cursor(Tokenize(f[p..]), args, i) == Cursor(Tokenize(f[p + 2..]), args, i')
  {
    TokenizeAt(f, p);
    FlattenCons(piece, Pieces(Tokenize(f[p + 2..]), args, i', conv));
    if f[p + 1] != '%' && i >= |args| {
      assert f[p..p + 2] == Directive(TokenFor(f[p + 1]).p);
    }
  }

  /** The scan copying a character that does not start a directive. */
  lemma LiteralStep(f: string, p: nat, args: seq<Value>, i: nat, conv: Conversions)
    requires p < |f| && !(f[p] == '%' && p + 1 < |f| && IsDirectiveChar(f[p + 1]))
    ensures Flatten(Pieces(Tokenize(f[p..]), args, i, conv)) == [f[p]] + Flatten(Pieces(Tokenize(f[p + 1..]), args, i, conv))
    ensures Cursor(Tokenize(f[p..]), args, i) == Cursor(Tokenize(f[p + 1..]), args, i)
  {
    TokenizeAt(f, p);
    FlattenCons([f[p]], Pieces(Tokenize(f[p + 1..]), args, i, conv));
  }

  /** mocha-casperjs.js:83-96: the replace pass over the format string `f`, advancing the
      argument cursor `i` from 1. */
  method Substitute(f: string, args: seq<Value>, conv: Conversions) returns (str: string, i: nat)
    requires args != []
    ensures str == Flatten(Pieces(Tokenize(f), args, 1, conv))
    ensures i == Cursor(Tokenize(f), args, 1)
  {
    i := 1;
    var p := 0;
    str := "";
    assert f[0..] == f;
    while p < |f|
      invariant 0 <= p <= |f|
      invariant 1 <= i <= |args|
      invariant str + Flatten(Pieces(Tokenize(f[p..]), args, i, conv)) == Flatten(Pieces(Tokenize(f), args, 1, conv))
      invariant Cursor(Tokenize(f[p..]), args, i) == Cursor(Tokenize(f), args, 1)
      decreases |f| - p
    {
      if f[p] == '%' && p + 1 < |f| && IsDirectiveChar(f[p + 1]) {
        var x := f[p..p + 2];
        assert x == ['%', f[p + 1]];
        var piece: string;
        var cursor := i;
        if x == "%%" {
          piece := "%";
        } else if i >= |args| {
          piece := x;
        } else {
          if x == "%s" {
            piece := conv.toString(args[i]);
          } else if x == "%d" {
            piece := conv.toNumber(args[i]);
          } else {
            piece := JsonText(args[i], conv);
          }
          i := i + 1;
        }
        DirectiveStep(f, p, args, cursor, piece, i, conv);
        Associate(str, piece, Flatten(Pieces(Tokenize(f[p + 2..]), args, i, conv)));
        str := str + piece;
        p := p + 2;
      } else {
        LiteralStep(f, p, args, i, conv);
        Associate(str, [f[p]], Flatten(Pieces(Tokenize(f[p + 1..]), args, i, conv)));
        str := str + [f[p]];
        p := p + 1;
      }
    }
  }

  lemma LeftoverStep(head: string, args: seq<Value>, first: nat, i: nat, conv: Conversions)
    requires first <= i < |args|
    ensures head + Spaced(PlainTexts(args[first..i + 1], conv))
         == head + Spaced(PlainTexts(args[first..i], conv)) + " " + PlainText(args[i], conv)
  {
    var next := args[first..i + 1];
    assert next[..|next| - 1] == args[first..i];
    var ts := PlainTexts(next, conv);
    assert ts[..|ts| - 1] == PlainTexts(args[first..i], conv);
    var done := Spaced(PlainTexts(args[first..i], conv));
    assert Spaced(ts) == done + " " + PlainText(args[i], conv);
    assert head + (done + " " + PlainText(args[i], conv)) == head + done + " " + PlainText(args[i], conv);
  }

  /** mocha-casperjs.js:97-103: append every argument from the cursor on, each after one
      space. */
  method AppendLeftover(head: string, args: seq<Value>, first: nat, conv: Conversions) returns (str: string)
    requires first <= |args|
    ensures str == head + Spaced(PlainTexts(args[first..], conv))
  {
    var i := first;
    str := head;
    assert args[first..first] == [];
    while i < |args|
      invariant first <= i <= |args|
      invariant str == head + Spaced(PlainTexts(args[first..i], conv))
    {
      LeftoverStep(head, args, first, i, conv);
      str := str + " " + PlainText(args[i], conv);
      i := i + 1;
    }
    assert args[first..|args|] == args[first..];
  }

  /** console.format(args[0], args[1], ...). */
  method ConsoleFormat(args: seq<Value>, conv: Conversions) returns (str: string)
    ensures str == Formatted(args, conv)
  {
    if args == [] || !args[0].Str? {
      str := JsonJoin(args, conv);
      return;
    }
    var i;
    str, i := Substitute(args[0].s, args, conv);
    str := AppendLeftover(str, args, i, conv);
  }
}
