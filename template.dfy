/** `interpolateTemplate` of src/lib/execution.ts: every match of the pattern
    `{{` + one or more characters other than `}` + `}}` is replaced by the value its
    path names in the context of earlier node outputs.

    The global regular-expression replace is modelled as a deterministic scanner.
    At each position a match needs `{{`, then the maximal run of non-`}` characters
    (which must not be empty), then `}}`; a shorter run can never be followed by `}`,
    so backtracking finds nothing more. Without a match the character is kept and
    the scan moves on by one; after a match it resumes behind the closing braces. */
module Template {
  import opened Wrappers
  import opened Strings
  import opened Flow

  /** The execution context: `context[id] = { output }` for every node that has
      finished, keyed by node id. */
  type Context = map<NodeId, string>

  // ---------------------------------------------------------------------------
  // Scanning

  /** The end of the maximal run of non-`}` characters starting at `j`. */
  function RunEnd(t: string, j: nat): (k: nat)
    requires j <= |t|
    ensures j <= k <= |t|
    ensures forall x :: j <= x < k ==> t[x] != '}'
    ensures k < |t| ==> t[k] == '}'
    decreases |t| - j
  {
    if j == |t| || t[j] == '}' then j else RunEnd(t, j + 1)
  }

  /** The pattern matches at the start of `s`; it then spans `s[..RunEnd(s, 2) + 2]`. */
  predicate MatchesHere(s: string) {
    && 2 <= |s| && s[0] == '{' && s[1] == '{'
    && var k := RunEnd(s, 2);
       2 < k && k + 1 < |s| && s[k + 1] == '}'
  }

  /** A match of the pattern begins at position `i` of `t`. */
  predicate MatchAt(t: string, i: nat) {
    i <= |t| && MatchesHere(t[i..])
  }

  /** What the scan cuts the template into: characters kept as they are, and
      placeholders with the text between their braces. */
  datatype Piece = Lit(c: char) | Hole(path: string)

  predicate HasHole(ps: seq<Piece>) {
    exists j :: 0 <= j < |ps| && ps[j].Hole?
  }

  /** The pieces of the rest `s` of the template. Every placeholder path is non-empty
      and free of `}`. */
  function Scan(s: string): (ps: seq<Piece>)
    ensures forall j :: 0 <= j < |ps| && ps[j].Hole? ==> |ps[j].path| > 0 && '}' !in ps[j].path
    decreases |s|
  {
    if |s| == 0 then []
    else if MatchesHere(s) then
      var k := RunEnd(s, 2);
      [Hole(s[2..k])] + Scan(s[k + 2..])
    else [Lit(s[0])] + Scan(s[1..])
  }

  function PieceText(p: Piece): string {
    match p
    case Lit(c) => [c]
    case Hole(path) => "{{" + path + "}}"
  }

  /** The template text a list of pieces was cut from. */
  function Unparse(ps: seq<Piece>): string
    decreases |ps|
  {
    if |ps| == 0 then "" else PieceText(ps[0]) + Unparse(ps[1..])
  }

  lemma UnparseCons(p: Piece, ps: seq<Piece>)
    ensures Unparse([p] + ps) == PieceText(p) + Unparse(ps)
  {
    assert ([p] + ps)[1..] == ps;
  }

  /** The text of a match is `{{`, its path, and `}}`. */
  lemma MatchText(s: string)
    requires MatchesHere(s)
    ensures var k := RunEnd(s, 2);
      s == PieceText(Hole(s[2..k])) + s[k + 2..]
  {
    var k := RunEnd(s, 2);
    assert s[..2] == "{{";
    assert s[k..k + 2] == "}}";
    assert s == s[..2] + s[2..k] + s[k..k + 2] + s[k + 2..];
  }

  /** The scan only cuts: putting the pieces back together gives the template. */
  lemma {:induction false} UnparseScan(s: string)
    ensures Unparse(Scan(s)) == s
    decreases |s|
  {
    if |s| > 0 {
      if MatchesHere(s) {
        var k := RunEnd(s, 2);
        var h := Hole(s[2..k]);
        var rest := s[k + 2..];
        UnparseScan(rest);
        MatchText(s);
        UnparseCons(h, Scan(rest));
      } else {
        UnparseScan(s[1..]);
        UnparseCons(Lit(s[0]), Scan(s[1..]));
        assert s == [s[0]] + s[1..];
      }
    }
  }

  /** The scan produces a placeholder exactly when the pattern matches somewhere. */
  lemma {:induction false} ScanFinds(s: string)
    ensures HasHole(Scan(s)) <==> exists i :: 0 <= i < |s| && MatchAt(s, i)
    decreases |s|
  {
    if |s| > 0 {
      var ps := Scan(s);
      if MatchesHere(s) {
        assert ps[0].Hole?;
        assert s[0..] == s;
        assert MatchAt(s, 0);
      } else {
        var tail := s[1..];
        ScanFinds(tail);
        var rest := Scan(tail);
        assert ps == [Lit(s[0])] + rest;
        if HasHole(ps) {
          var j :| 0 <= j < |ps| && ps[j].Hole?;
          assert rest[j - 1].Hole?;
          var i :| 0 <= i < |tail| && MatchAt(tail, i);
          assert tail[i..] == s[i + 1..];
          assert MatchAt(s, i + 1);
        }
        if exists i :: 0 <= i < |s| && MatchAt(s, i) {
          var i :| 0 <= i < |s| && MatchAt(s, i);
          assert s[0..] == s;
          assert i != 0;
          assert tail[i - 1..] == s[i..];
          assert MatchAt(tail, i - 1);
          var j :| 0 <= j < |rest| && rest[j].Hole?;
          assert ps[j + 1].Hole?;
        }
      }
    }
  }

  /** Every character of `s` kept as it is. */
  function Lits(s: string): (ps: seq<Piece>)
    ensures |ps| == |s|
    decreases |s|
  {
    if |s| == 0 then [] else [Lit(s[0])] + Lits(s[1..])
  }

  /** A prefix without `{` is kept character by character. */
  lemma {:induction false} ScanBraceFree(a: string, b: string)
    requires '{' !in a
    ensures Scan(a + b) == Lits(a) + Scan(b)
    decreases |a|
  {
    if |a| == 0 {
      assert a + b == b;
    } else {
      var t := a + b;
      assert t[0] == a[0] && !MatchesHere(t);
      assert t[1..] == a[1..] + b;
      ScanBraceFree(a[1..], b);
    }
  }

  // ---------------------------------------------------------------------------
  // Resolving a path

  /** The kinds of value the path walk meets: `undefined`, the context object, a
      context entry `{ output }`, a string and a string's length. */
  datatype Value = Undefined | Root | Entry(output: string) | Str(s: string) | Num(n: nat)

  function DigitValue(c: char): nat
    requires '0' <= c <= '9'
  {
    (c as int - '0' as int) as nat
  }

  function DigitChar(d: nat): char
    requires d < 10
  {
    ('0' as int + d) as char
  }

  predicate AllDigits(s: string) {
    forall j :: 0 <= j < |s| ==> '0' <= s[j] <= '9'
  }

  function DigitsValue(s: string): nat
    requires AllDigits(s)
    decreases |s|
  {
    if |s| == 0 then 0 else DigitsValue(s[..|s| - 1]) * 10 + DigitValue(s[|s| - 1])
  }

  /** `String(n)` for a string length. */
  function NatToString(n: nat): string
    decreases n
  {
    if n < 10 then [DigitChar(n)] else NatToString(n / 10) + [DigitChar(n % 10)]
  }

  /** A property name that is an array index: decimal digits with no leading zero
      (the canonical form; "01" or "+1" names no character). */
  function ParseIndex(part: string): Option<nat> {
    if |part| > 0 && AllDigits(part) && (part[0] != '0' || |part| == 1) then Some(DigitsValue(part))
    else None
  }

  /** Decimal formatting and index parsing are inverse. */
  lemma {:induction false} NatToStringParses(n: nat)
    ensures |NatToString(n)| > 0 && AllDigits(NatToString(n))
    ensures NatToString(n)[0] != '0' || n == 0
    ensures DigitsValue(NatToString(n)) == n
    ensures ParseIndex(NatToString(n)) == Some(n)
    decreases n
  {
    if n >= 10 {
      var s := NatToString(n);
      NatToStringParses(n / 10);
      assert s[..|s| - 1] == NatToString(n / 10);
      assert s[0] == NatToString(n / 10)[0];
    }
  }

  /** `value?.[part]`, one step of the walk. A context entry has only `output`; a
      string has `length` and its indices. Properties inherited from prototypes are
      not modelled and read as `undefined`. */
  function Lookup(v: Value, part: string, ctx: Context): Value {
    match v
    case Undefined => Undefined
    case Root => if part in ctx then Entry(ctx[part]) else Undefined
    case Entry(o) => if part == "output" then Str(o) else Undefined
    case Str(s) =>
      if part == "length" then Num(|s|)
      else
        var index := ParseIndex(part);
        if index.Some? && index.value < |s| then Str([s[index.value]]) else Undefined
    case Num(_) => Undefined
  }

  /** The walk over all parts, in order. */
  function WalkParts(v: Value, parts: seq<string>, ctx: Context): Value
    decreases |parts|
  {
    if |parts| == 0 then v else Lookup(WalkParts(v, parts[..|parts| - 1], ctx), parts[|parts| - 1], ctx)
  }

  /** `value !== undefined ? String(value) : ''`. */
  function Display(v: Value): string {
    match v
    case Undefined => ""
    case Root => "[object Object]"
    case Entry(_) => "[object Object]"
    case Str(s) => s
    case Num(n) => NatToString(n)
  }

  /** The replacement for a placeholder: its path trimmed, split on `.`, walked from
      the context. */
  function Resolve(path: string, ctx: Context): string {
    Display(WalkParts(Root, Split(Trim(path), '.'), ctx))
  }

  /** Once a segment is missing the walk stays `undefined`. */
  lemma {:induction false} UndefinedAbsorbs(parts: seq<string>, ctx: Context)
    ensures WalkParts(Undefined, parts, ctx) == Undefined
    decreases |parts|
  {
    if |parts| > 0 {
      UndefinedAbsorbs(parts[..|parts| - 1], ctx);
    }
  }

  lemma {:induction false} WalkAppend(v: Value, p: seq<string>, q: seq<string>, ctx: Context)
    ensures WalkParts(v, p + q, ctx) == WalkParts(WalkParts(v, p, ctx), q, ctx)
    decreases |q|
  {
    if |q| == 0 {
      assert p + q == p;
    } else {
      assert (p + q)[..|p + q| - 1] == p + q[..|q| - 1];
      WalkAppend(v, p, q[..|q| - 1], ctx);
    }
  }

  /** If the walk is `undefined` after some segment, the placeholder becomes `''`. */
  lemma MissingSegment(path: string, ctx: Context, n: nat)
    requires n <= |Split(Trim(path), '.')|
    requires WalkParts(Root, Split(Trim(path), '.')[..n], ctx) == Undefined
    ensures Resolve(path, ctx) == ""
  {
    var parts := Split(Trim(path), '.');
    assert parts == parts[..n] + parts[n..];
    WalkAppend(Root, parts[..n], parts[n..], ctx);
    UndefinedAbsorbs(parts[n..], ctx);
  }

  /** `{{id.output}}` names the recorded output of node `id`, or `''` when that node
      has not produced one. */
  lemma TrimIdOutput(id: NodeId)
    requires |id| == 0 || !IsWhitespace(id[0])
    ensures Trim(id + ".output") == id + ".output"
  {
    var path := id + ".output";
    assert path[|path| - 1] == 't';
    assert |id| > 0 ==> path[0] == id[0];
  }

  lemma SplitIdOutput(id: NodeId)
    requires '.' !in id
    ensures Split(id + ".output", '.') == [id, "output"]
  {
    var parts := [id, "output"];
    assert Join(parts, '.') == id + ".output" by {
      assert parts[1..] == ["output"];
    }
    SplitJoin(parts, '.');
  }

  lemma WalkIdOutput(id: NodeId, ctx: Context)
    ensures WalkParts(Root, [id, "output"], ctx) == if id in ctx then Str(ctx[id]) else Undefined
  {
    var parts := [id, "output"];
    assert parts[..1] == [id];
    assert [id][..0] == [];
    assert WalkParts(Root, [], ctx) == Root;
    assert WalkParts(Root, [id], ctx) == Lookup(Root, id, ctx);
  }

  /** `{{id.output}}` for a node id without dots or leading whitespace is that node's
      recorded output, or empty when it has none. */
  lemma ResolveOutput(id: NodeId, ctx: Context)
    requires '.' !in id
    requires |id| == 0 || !IsWhitespace(id[0])
    ensures Resolve(id + ".output", ctx) == if id in ctx then ctx[id] else ""
  {
    TrimIdOutput(id);
    SplitIdOutput(id);
    WalkIdOutput(id, ctx);
  }

  // ---------------------------------------------------------------------------
  // Substitution

  function PieceRender(p: Piece, f: string -> string): string {
    match p
    case Lit(c) => [c]
    case Hole(path) => f(path)
  }

  /** Each kept character stays, each placeholder is replaced by what the callback
      returns for its path. */
  function Render(ps: seq<Piece>, f: string -> string): string
    decreases |ps|
  {
    if |ps| == 0 then "" else PieceRender(ps[0], f) + Render(ps[1..], f)
  }

  /** `template.replace(/\{\{([^}]+)\}\}/g, (_, path) => f(path))`. */
  function Substitute(template: string, f: string -> string): string {
    Render(Scan(template), f)
  }

  /** The replace with the path-resolving callback of `interpolateTemplate`. */
  function Resolver(ctx: Context): string -> string {
    path => Resolve(path, ctx)
  }

  function Interpolate(template: string, ctx: Context): string {
    Substitute(template, Resolver(ctx))
  }

  lemma {:induction false} RenderAppend(p: seq<Piece>, q: seq<Piece>, f: string -> string)
    ensures Render(p + q, f) == Render(p, f) + Render(q, f)
    decreases |p|
  {
    if |p| == 0 {
      assert p + q == q;
    } else {
      assert (p + q)[1..] == p[1..] + q;
      RenderAppend(p[1..], q, f);
    }
  }

  lemma {:induction false} RenderWithoutHoles(ps: seq<Piece>, f: string -> string)
    requires !HasHole(ps)
    ensures Render(ps, f) == Unparse(ps)
    decreases |ps|
  {
    if |ps| > 0 {
      assert !ps[0].Hole?;
      assert !HasHole(ps[1..]) by {
        forall j | 0 <= j < |ps[1..]| ensures !ps[1..][j].Hole? {
          assert ps[1..][j] == ps[j + 1];
        }
      }
      RenderWithoutHoles(ps[1..], f);
    }
  }

  lemma {:induction false} RenderLits(s: string, f: string -> string)
    ensures Render(Lits(s), f) == s
    decreases |s|
  {
    if |s| > 0 {
      assert Lits(s)[1..] == Lits(s[1..]);
      RenderLits(s[1..], f);
      assert s == [s[0]] + s[1..];
    }
  }

  /** A template in which the pattern matches nowhere is returned unchanged, whatever
      the callback. */
  lemma NoMatchUnchanged(t: string, f: string -> string)
    requires forall j :: 0 <= j < |t| ==> !MatchAt(t, j)
    ensures Substitute(t, f) == t
  {
    ScanFinds(t);
    RenderWithoutHoles(Scan(t), f);
    UnparseScan(t);
  }

  /** A placeholder at the start of the text is recognised with exactly its path. */
  lemma PlaceholderScan(path: string, b: string)
    requires |path| > 0 && '}' !in path
    ensures Scan("{{" + path + "}}" + b) == [Hole(path)] + Scan(b)
  {
    var s := "{{" + path + "}}" + b;
    var k := 2 + |path|;
    assert forall x :: 2 <= x < k ==> s[x] == path[x - 2];
    assert s[k] == '}' && s[k + 1] == '}';
    assert RunEnd(s, 2) == k;
    assert s[2..k] == path;
    assert s[k + 2..] == b;
  }

  /** Text without `{` in front of the rest is kept as it is. */
  lemma KeepBraceFree(a: string, rest: string, f: string -> string)
    requires '{' !in a
    ensures Substitute(a + rest, f) == a + Substitute(rest, f)
  {
    ScanBraceFree(a, rest);
    RenderAppend(Lits(a), Scan(rest), f);
    RenderLits(a, f);
  }

  /** A placeholder at the start is replaced by the callback's value for its path. */
  lemma ReplaceFirst(path: string, b: string, f: string -> string)
    requires |path| > 0 && '}' !in path
    ensures Substitute("{{" + path + "}}" + b, f) == f(path) + Substitute(b, f)
  {
    PlaceholderScan(path, b);
    RenderAppend([Hole(path)], Scan(b), f);
    assert Render([Hole(path)], f) == f(path) by {
      assert [Hole(path)][1..] == [];
    }
  }

  /** Text before the first `{` is kept as it is, a placeholder right after it is
      replaced by the callback's value for its path, and the rest is substituted on
      its own. */
  lemma Splice(a: string, path: string, b: string, f: string -> string)
    requires '{' !in a
    requires |path| > 0 && '}' !in path
    ensures Substitute(a + "{{" + path + "}}" + b, f) == a + f(path) + Substitute(b, f)
  {
    var rest := "{{" + path + "}}" + b;
    assert a + "{{" + path + "}}" + b == a + rest;
    assert Substitute(rest, f) == f(path) + Substitute(b, f) by {
      ReplaceFirst(path, b, f);
    }
    assert Substitute(a + rest, f) == a + Substitute(rest, f) by {
      KeepBraceFree(a, rest, f);
    }
    var x, y := f(path), Substitute(b, f);
    assert a + (x + y) == a + x + y;
  }

  /** Where the pattern does not match, the first character is kept. */
  lemma KeepFirst(s: string, f: string -> string)
    requires |s| > 0 && !MatchesHere(s)
    ensures Substitute(s, f) == [s[0]] + Substitute(s[1..], f)
  {
    assert Scan(s) == [Lit(s[0])] + Scan(s[1..]);
    assert ([Lit(s[0])] + Scan(s[1..]))[1..] == Scan(s[1..]);
  }

  /** `{{}}` is not a placeholder: an empty body does not match. */
  lemma EmptyBracesKept(b: string, f: string -> string)
    ensures Substitute("{{}}" + b, f) == "{{}}" + Substitute(b, f)
  {
    var t := "{{}}" + b;
    assert t[2] == '}';
    assert RunEnd(t, 2) == 2;
    KeepFirst(t, f);
    var t1 := t[1..];
    assert t1 == "{}}" + b;
    assert t1[1] == '}';
    KeepFirst(t1, f);
    assert t1[1..] == "}}" + b;
    KeepBraceFree("}}", b, f);
  }

  // ---------------------------------------------------------------------------
  // The source's form

  /** The replace callback: trims and splits the path, then walks it part by part
      from the context. */
  method ResolvePlaceholder(path: string, ctx: Context) returns (r: string)
    ensures r == Resolve(path, ctx)
  {
    var parts := Split(Trim(path), '.');
    var value := Root;
    for i := 0 to |parts|
      invariant value == WalkParts(Root, parts[..i], ctx)
    {
      assert parts[..i + 1][..i] == parts[..i];
      value := Lookup(value, parts[i], ctx);
    }
    assert parts[..|parts|] == parts;
    r := Display(value);
  }

  lemma RenderStep(r: string, ps: seq<Piece>, j: nat, f: string -> string)
    requires j < |ps|
    ensures r + Render(ps[j..], f) == (r + PieceRender(ps[j], f)) + Render(ps[j + 1..], f)
  {
    assert ps[j..][1..] == ps[j + 1..];
    var x, y := PieceRender(ps[j], f), Render(ps[j + 1..], f);
    assert Render(ps[j..], f) == x + y;
    assert r + (x + y) == (r + x) + y;
  }

  /** What one piece becomes: a kept character, or the resolved placeholder. */
  method RenderPiece(p: Piece, ctx: Context) returns (out: string)
    ensures out == PieceRender(p, Resolver(ctx))
  {
    match p {
      case Lit(c) =>
        out := [c];
      case Hole(path) =>
        out := ResolvePlaceholder(path, ctx);
    }
  }

  /** The pieces rendered one after another. */
  method RenderPieces(pieces: seq<Piece>, ctx: Context) returns (r: string)
    ensures r == Render(pieces, Resolver(ctx))
  {
    ghost var f := Resolver(ctx);
    r := "";
    for j := 0 to |pieces|
      invariant r + Render(pieces[j..], f) == Render(pieces, f)
    {
      RenderStep(r, pieces, j, f);
      var replacement := RenderPiece(pieces[j], ctx);
      r := r + replacement;
    }
    assert pieces[|pieces|..] == [];
  }

  /** `interpolateTemplate`: the global replace, match by match. */
  method InterpolateTemplate(template: string, ctx: Context) returns (r: string)
    ensures r == Interpolate(template, ctx)
  {
    var pieces := Scan(template);
    r := RenderPieces(pieces, ctx);
  }
}
