/** The text a cache key is hashed from, and package digests (compiler/compiler-cache.go). */
module CacheKeys {

  // ----- quoting -----

  /** One hexadecimal digit, as strconv.Quote writes it. */
  function Digit(n: nat): (c: char)
    requires n < 16
    ensures Value(c) == n
  {
    if n < 10 then '0' + n as char else 'a' + (n - 10) as char
  }

  function Value(c: char): nat
  {
    if '0' <= c <= '9' then (c - '0') as nat
    else if 'a' <= c <= 'f' then 10 + (c - 'a') as nat
    else 0
  }

  /** `width` digits, the most significant first. */
  function Hex(n: nat, width: nat): (s: string)
    ensures |s| == width
  {
    if width == 0 then "" else Hex(n / 16, width - 1) + [Digit(n % 16)]
  }

  function HexValue(s: string): nat
  {
    if s == "" then 0 else HexValue(s[..|s| - 1]) * 16 + Value(s[|s| - 1])
  }

  function Power16(width: nat): nat
  {
    if width == 0 then 1 else 16 * Power16(width - 1)
  }

  lemma {:induction false} HexRoundTrip(n: nat, width: nat)
    requires n < Power16(width)
    ensures HexValue(Hex(n, width)) == n
  {
    if width > 0 {
      var s := Hex(n, width);
      HexRoundTrip(n / 16, width - 1);
      assert s[..|s| - 1] == Hex(n / 16, width - 1);
    }
  }

  /** What strconv.Quote writes for one character; `printable` is unicode.IsPrint. */
  function Escape(printable: char -> bool, c: char): (e: string)
    ensures e == [c] || (|e| >= 2 && e[0] == '\\')
  {
    if c == '\"' || c == '\\' then ['\\', c]
    else if printable(c) then [c]
    else if c == '\n' then "\\n"
    else if c == '\r' then "\\r"
    else if c == '\t' then "\\t"
    else if c as int == 7 then "\\a"
    else if c as int == 8 then "\\b"
    else if c as int == 12 then "\\f"
    else if c as int == 11 then "\\v"
    else if c < ' ' || c as int == 127 then "\\x" + Hex(c as int, 2)
    else if c as int < 0x1_0000 then "\\u" + Hex(c as int, 4)
    else "\\U" + Hex(c as int, 8)
  }

  function Escapes(printable: char -> bool, s: string): string
  {
    if s == "" then "" else Escape(printable, s[0]) + Escapes(printable, s[1..])
  }

  function Quote(printable: char -> bool, s: string): string
  {
    "\"" + Escapes(printable, s) + "\""
  }

  datatype Read<T> = Got(value: T, rest: string) | Bad

  function CharOf(n: nat): Read<char>
  {
    if n < 0xD800 || 0xE000 <= n < 0x11_0000 then Got(n as char, "") else Bad
  }

  /** Reads the escape behind a backslash. */
  function ReadEscape(s: string): Read<char>
  {
    if s == "" then Bad
    else if s[0] == '\"' || s[0] == '\\' then Got(s[0], s[1..])
    else if s[0] == 'n' then Got('\n', s[1..])
    else if s[0] == 'r' then Got('\r', s[1..])
    else if s[0] == 't' then Got('\t', s[1..])
    else if s[0] == 'a' then Got(7 as char, s[1..])
    else if s[0] == 'b' then Got(8 as char, s[1..])
    else if s[0] == 'f' then Got(12 as char, s[1..])
    else if s[0] == 'v' then Got(11 as char, s[1..])
    else
      var width := if s[0] == 'x' then 2 else if s[0] == 'u' then 4 else 8;
      if |s| < 1 + width then Bad
      else
        match CharOf(HexValue(s[1..1 + width]))
        case Bad => Bad
        case Got(c, _) => Got(c, s[1 + width..])
  }

  /** Reads up to the closing quote. */
  function Unquote(s: string): (r: Read<string>)
    ensures r.Got? ==> |r.rest| < |s|
    decreases |s|
  {
    if s == "" then Bad
    else if s[0] == '\"' then Got("", s[1..])
    else if s[0] != '\\' then
      match Unquote(s[1..])
      case Bad => Bad
      case Got(v, rest) => Got([s[0]] + v, rest)
    else
      match ReadEscape(s[1..])
      case Bad => Bad
      case Got(c, after) =>
        if |after| >= |s| then Bad
        else
          match Unquote(after)
          case Bad => Bad
          case Got(v, rest) => Got([c] + v, rest)
  }

  lemma {:induction false} EscapeRoundTrip(printable: char -> bool, c: char, rest: string)
    ensures var e := Escape(printable, c);
      if e == [c] then c != '\"' && c != '\\' else e[0] == '\\' && ReadEscape(e[1..] + rest) == Got(c, rest)
  {
    hide HexValue, Hex;
    var e, n := Escape(printable, c), c as int;
    if e != [c] {
      if e[1] == 'x' {
        HexEscape('x', c, 2, rest);
      } else if e[1] == 'u' {
        HexEscape('u', c, 4, rest);
      } else if e[1] == 'U' {
        HexEscape('U', c, 8, rest);
      } else {
        assert (e[1..] + rest)[1..] == rest;
      }
    }
  }

  lemma {:induction false} HexEscape(lead: char, c: char, width: nat, rest: string)
    requires (lead == 'x' && width == 2 && c as int < 0x100) || (lead == 'u' && width == 4 && c as int < 0x1_0000) ||
      (lead == 'U' && width == 8)
    ensures ReadEscape([lead] + Hex(c as int, width) + rest) == Got(c, rest)
    ensures (['\\', lead] + Hex(c as int, width))[1..] + rest == [lead] + Hex(c as int, width) + rest
  {
    hide Hex, HexValue;
    var t := [lead] + Hex(c as int, width) + rest;
    PowersOf16();
    HexRoundTrip(c as int, width);
    assert t[1..1 + width] == Hex(c as int, width);
    assert t[1 + width..] == rest;
    assert CharOf(c as int) == Got(c, "");
    assert (['\\', lead] + Hex(c as int, width))[1..] == [lead] + Hex(c as int, width);
  }

  lemma {:induction false} PowersOf16()
    ensures Power16(2) == 0x100 && Power16(4) == 0x1_0000 && Power16(8) == 0x1_0000_0000
  {
    assert Power16(2) == 0x100 && Power16(4) == 0x1_0000 by { assert Power16(1) == 16; assert Power16(3) == 0x1000; }
    assert Power16(8) == 0x1_0000_0000 by {
      assert Power16(5) == 0x10_0000;
      assert Power16(6) == 0x100_0000;
      assert Power16(7) == 0x1000_0000;
    }
  }

  /** What is quoted can be read back, whatever follows it. */
  lemma {:induction false} QuoteRoundTrip(printable: char -> bool, s: string, rest: string)
    ensures Unquote(Escapes(printable, s) + "\"" + rest) == Got(s, rest)
  {
    hide Escape, ReadEscape;
    var all := Escapes(printable, s) + "\"" + rest;
    if s == "" {
      assert all[1..] == rest;
    } else {
      var e, more := Escape(printable, s[0]), Escapes(printable, s[1..]) + "\"" + rest;
      QuoteRoundTrip(printable, s[1..], rest);
      EscapeRoundTrip(printable, s[0], more);
      assert all == e + more;
      assert [s[0]] + s[1..] == s;
      UnquoteOne(e, s[0], more);
    }
  }

  /** One character, as it is or escaped, in front of quoted text. */
  lemma {:induction false} UnquoteOne(e: string, c: char, more: string)
    requires if e == [c] then c != '\"' && c != '\\'
      else |e| >= 2 && e[0] == '\\' && ReadEscape(e[1..] + more) == Got(c, more)
    requires Unquote(more).Got?
    ensures Unquote(e + more) == Got([c] + Unquote(more).value, Unquote(more).rest)
  {
    hide ReadEscape;
    var all := e + more;
    assert all[0] == e[0] && all[1..] == e[1..] + more;
    if e == [c] { assert all[1..] == more; }
  }

  // ----- key fields -----

  datatype Field = Field(key: string, value: string)

  /** writeKeyField. */
  function Line(printable: char -> bool, f: Field): string
  {
    f.key + "=" + Quote(printable, f.value) + "\n"
  }

  function Lines(printable: char -> bool, fields: seq<Field>): string
  {
    if fields == [] then "" else Line(printable, fields[0]) + Lines(printable, fields[1..])
  }

  /** The keys are names the cache chooses itself; none holds an equals sign. */
  predicate PlainKey(key: string)
  {
    '=' !in key
  }

  predicate PlainKeys(fields: seq<Field>)
  {
    forall i :: 0 <= i < |fields| ==> PlainKey(fields[i].key)
  }

  function ReadKey(s: string): (r: Read<string>)
    ensures r.Got? ==> |r.rest| < |s|
  {
    if s == "" then Bad
    else if s[0] == '=' then Got("", s[1..])
    else
      match ReadKey(s[1..])
      case Bad => Bad
      case Got(k, rest) => Got([s[0]] + k, rest)
  }

  function ReadFields(s: string): Read<seq<Field>>
    decreases |s|
  {
    if s == "" then Got([], "")
    else
      match ReadKey(s)
      case Bad => Bad
      case Got(key, quoted) =>
        if quoted == "" || quoted[0] != '\"' then Bad
        else
          match Unquote(quoted[1..])
          case Bad => Bad
          case Got(value, rest) =>
            if rest == "" || rest[0] != '\n' then Bad
            else
              match ReadFields(rest[1..])
              case Bad => Bad
              case Got(fields, _) => Got([Field(key, value)] + fields, "")
  }

  lemma {:induction false} KeyRoundTrip(key: string, rest: string)
    requires PlainKey(key)
    ensures ReadKey(key + "=" + rest) == Got(key, rest)
  {
    var all := key + "=" + rest;
    if key == "" {
      assert all[1..] == rest;
    } else {
      KeyRoundTrip(key[1..], rest);
      assert all[1..] == key[1..] + "=" + rest;
      assert [key[0]] + key[1..] == key;
    }
  }

  /** The fields can be read back from the text. */
  lemma {:induction false} FieldsRoundTrip(printable: char -> bool, fields: seq<Field>)
    requires PlainKeys(fields)
    ensures ReadFields(Lines(printable, fields)) == Got(fields, "")
  {
    hide Unquote, ReadKey, Escapes;
    if fields != [] {
      var f, rest := fields[0], Lines(printable, fields[1..]);
      var all := Lines(printable, fields);
      var quoted := Quote(printable, f.value) + "\n" + rest;
      assert all == f.key + "=" + quoted;
      KeyRoundTrip(f.key, quoted);
      assert quoted[1..] == Escapes(printable, f.value) + "\"" + ("\n" + rest);
      QuoteRoundTrip(printable, f.value, "\n" + rest);
      assert ("\n" + rest)[1..] == rest;
      FieldsRoundTrip(printable, fields[1..]);
      assert [f] + fields[1..] == fields;
    }
  }

  /** Different field sequences have different texts. */
  lemma {:induction false} LinesInjective(printable: char -> bool, a: seq<Field>, b: seq<Field>)
    requires PlainKeys(a) && PlainKeys(b) && Lines(printable, a) == Lines(printable, b)
    ensures a == b
  {
    FieldsRoundTrip(printable, a);
    FieldsRoundTrip(printable, b);
  }

  // ----- package digests -----

  /** A node of the package graph: what is recorded about the package itself, and its imports. */
  datatype Node = Node(recorded: seq<Field>, imports: seq<string>)

  type Graph = map<string, Node>

  /** The hash and the printable characters. */
  datatype World = World(hash: string -> string, printable: char -> bool)

  /** The hash has no collisions and never gives the empty string. */
  ghost predicate CollisionFree(w: World)
  {
    (forall a, b :: w.hash(a) == w.hash(b) ==> a == b) && forall a :: w.hash(a) != ""
  }

  /** Imports inside the graph have a smaller rank: there is no import cycle. */
  ghost predicate Acyclic(g: Graph, rank: string -> nat)
  {
    forall p, q :: p in g && q in g[p].imports && q in g ==> rank(q) < rank(p)
  }

  /** Recorded fields never look like import fields. */
  ghost predicate Recorded(g: Graph)
  {
    forall p, i :: p in g && 0 <= i < |g[p].recorded| ==>
      PlainKey(g[p].recorded[i].key) && g[p].recorded[i].key != "import" && g[p].recorded[i].key != "import-digest"
  }

  ghost function NodeDigest(w: World, g: Graph, rank: string -> nat, p: string): string
    requires Acyclic(g, rank)
    decreases rank(p), 1, 0
  {
    if p !in g then "" else w.hash(Lines(w.printable, g[p].recorded + ImportFields(w, g, rank, p, 0)))
  }

  /** The fields of the imports of `p` from the `i`th on. */
  ghost function ImportFields(w: World, g: Graph, rank: string -> nat, p: string, i: nat): (r: seq<Field>)
    requires Acyclic(g, rank) && p in g
    ensures forall k :: 0 <= k < |r| ==> r[k].key == "import" || r[k].key == "import-digest"
    decreases rank(p), 0, |g[p].imports| - i
  {
    if i >= |g[p].imports| then []
    else
      var q := g[p].imports[i];
      [Field("import", q)] +
      (if q in g then [Field("import-digest", NodeDigest(w, g, rank, q))] else []) +
      ImportFields(w, g, rank, p, i + 1)
  }

  lemma {:induction false} DigestPresent(w: World, g: Graph, rank: string -> nat, p: string)
    requires CollisionFree(w) && Acyclic(g, rank)
    ensures p in g <==> NodeDigest(w, g, rank, p) != ""
  {
  }

  /** Two packages record the same, import the same, and see the same imports in their graphs
      with the same digests. */
  ghost predicate SameNode(w: World, g: Graph, rg: string -> nat, h: Graph, rh: string -> nat, p: string, q: string)
    requires Acyclic(g, rg) && Acyclic(h, rh)
  {
    p in g && q in h && g[p] == h[q] &&
    forall i :: i in g[p].imports ==> NodeDigest(w, g, rg, i) == NodeDigest(w, h, rh, i)
  }

  /** The import fields from `i` on determine the imports from `i` on and their digests. */
  lemma {:induction false} ImportsDetermined(w: World, g: Graph, rg: string -> nat, h: Graph, rh: string -> nat,
                                             p: string, q: string, i: nat)
    requires CollisionFree(w) && Acyclic(g, rg) && Acyclic(h, rh) && p in g && q in h
    requires i <= |g[p].imports| && i <= |h[q].imports|
    requires ImportFields(w, g, rg, p, i) == ImportFields(w, h, rh, q, i)
    ensures g[p].imports[i..] == h[q].imports[i..]
    ensures forall k :: i <= k < |g[p].imports| ==>
      NodeDigest(w, g, rg, g[p].imports[k]) == NodeDigest(w, h, rh, g[p].imports[k])
    decreases |g[p].imports| - i
  {
    hide NodeDigest;
    var a, b := ImportFields(w, g, rg, p, i), ImportFields(w, h, rh, q, i);
    if i < |g[p].imports| {
      assert a[0].key == "import";
      assert i < |h[q].imports|;
      var x := g[p].imports[i];
      assert a[0] == Field("import", x) && b[0] == Field("import", h[q].imports[i]);
      var ra, rb := ImportFields(w, g, rg, p, i + 1), ImportFields(w, h, rh, q, i + 1);
      DigestPresent(w, g, rg, x);
      DigestPresent(w, h, rh, x);
      NextIsImport(w, g, rg, p, i + 1);
      NextIsImport(w, h, rh, q, i + 1);
      if x in g {
        assert a[1] == Field("import-digest", NodeDigest(w, g, rg, x));
        assert x in h;
        assert a[2..] == ra && b[2..] == rb;
      } else {
        assert a[1..] == ra;
        assert x !in h;
        assert b[1..] == rb;
      }
      ImportsDetermined(w, g, rg, h, rh, p, q, i + 1);
      assert g[p].imports[i..] == [x] + g[p].imports[i + 1..] && h[q].imports[i..] == [x] + h[q].imports[i + 1..];
    }
  }

  lemma {:induction false} NextIsImport(w: World, g: Graph, rank: string -> nat, p: string, i: nat)
    requires Acyclic(g, rank) && p in g
    ensures var r := ImportFields(w, g, rank, p, i); r != [] ==> r[0].key == "import"
  {
  }

  /** A sequence splits in one way into fields that are not import fields and fields that are. */
  lemma {:induction false} SplitOnce(a1: seq<Field>, b1: seq<Field>, a2: seq<Field>, b2: seq<Field>)
    requires a1 + b1 == a2 + b2
    requires forall f :: f in a1 || f in a2 ==> f.key != "import" && f.key != "import-digest"
    requires forall f :: f in b1 || f in b2 ==> f.key == "import" || f.key == "import-digest"
    ensures a1 == a2 && b1 == b2
  {
    if |a1| < |a2| { SplitsApart(a1, b1, a2, b2); }
    if |a2| < |a1| { SplitsApart(a2, b2, a1, b1); }
    assert a1 == (a1 + b1)[..|a1|] && a2 == (a2 + b2)[..|a1|];
    assert b1 == (a1 + b1)[|a1|..] && b2 == (a2 + b2)[|a1|..];
  }

  lemma {:induction false} SplitsApart(a1: seq<Field>, b1: seq<Field>, a2: seq<Field>, b2: seq<Field>)
    requires |a1| < |a2|
    requires forall f :: f in a2 ==> f.key != "import" && f.key != "import-digest"
    requires forall f :: f in b1 ==> f.key == "import" || f.key == "import-digest"
    ensures a1 + b1 != a2 + b2
  {
    assert (a2 + b2)[|a1|] == a2[|a1|] && a2[|a1|] in a2;
    if b1 != [] { assert (a1 + b1)[|a1|] == b1[0] && b1[0] in b1; }
  }

  lemma {:induction false} SameDigestSameNode(w: World, g: Graph, rg: string -> nat, h: Graph, rh: string -> nat,
                                              p: string, q: string)
    requires CollisionFree(w) && Acyclic(g, rg) && Acyclic(h, rh) && Recorded(g) && Recorded(h)
    requires p in g && NodeDigest(w, g, rg, p) == NodeDigest(w, h, rh, q)
    ensures SameNode(w, g, rg, h, rh, p, q)
  {
    DigestPresent(w, g, rg, p);
    DigestPresent(w, h, rh, q);
    var a, b := ImportFields(w, g, rg, p, 0), ImportFields(w, h, rh, q, 0);
    assert PlainKeys(g[p].recorded + a) && PlainKeys(h[q].recorded + b);
    LinesInjective(w.printable, g[p].recorded + a, h[q].recorded + b);
    SplitOnce(g[p].recorded, a, h[q].recorded, b);
    ImportsDetermined(w, g, rg, h, rh, p, q, 0);
    assert g[p].imports == g[p].imports[0..] && h[q].imports == h[q].imports[0..];
  }

  /** An import chain inside the graph. */
  ghost predicate Chain(g: Graph, chain: seq<string>)
  {
    chain != [] && (forall k :: 0 <= k < |chain| ==> chain[k] in g) &&
    forall k :: 0 <= k < |chain| - 1 ==> chain[k + 1] in g[chain[k]].imports
  }

  /** Equal digests mean equal records along every import chain, so for the whole import closure
      inside the graph. */
  lemma {:induction false} MerkleSound(w: World, g: Graph, rg: string -> nat, h: Graph, rh: string -> nat,
                                       chain: seq<string>)
    requires CollisionFree(w) && Acyclic(g, rg) && Acyclic(h, rh) && Recorded(g) && Recorded(h)
    requires Chain(g, chain) && NodeDigest(w, g, rg, chain[0]) == NodeDigest(w, h, rh, chain[0])
    ensures Chain(h, chain) && forall k :: 0 <= k < |chain| ==> g[chain[k]] == h[chain[k]]
    decreases |chain|
  {
    SameDigestSameNode(w, g, rg, h, rh, chain[0], chain[0]);
    if |chain| > 1 {
      var rest := chain[1..];
      assert rest[0] == chain[1];
      assert Chain(g, rest) by {
        forall k | 0 <= k < |rest| - 1
          ensures rest[k + 1] in g[rest[k]].imports
        {
          assert chain[k + 2] in g[chain[k + 1]].imports;
        }
      }
      MerkleSound(w, g, rg, h, rh, rest);
      forall k | 0 <= k < |chain| ensures chain[k] in h && g[chain[k]] == h[chain[k]] {
        if k > 0 { assert rest[k - 1] == chain[k]; }
      }
    }
  }

  /** `q` is `p`, or an import chain inside the graph leads from `p` to `q`. */
  ghost predicate Reaches(g: Graph, p: string, q: string)
  {
    exists chain :: Chain(g, chain) && chain[0] == p && chain[|chain| - 1] == q
  }

  /** The import closures of `p` in two graphs hold the same packages with the same records. */
  ghost predicate SameClosure(g: Graph, h: Graph, p: string)
  {
    forall q :: (Reaches(g, p, q) <==> Reaches(h, p, q)) && (Reaches(g, p, q) ==> q in g && q in h && g[q] == h[q])
  }

  lemma {:induction false} ReachesItself(g: Graph, p: string)
    ensures Reaches(g, p, p) <==> p in g
  {
    if p in g { assert Chain(g, [p]) && [p][0] == p && [p][|[p]| - 1] == p; }
  }

  lemma {:induction false} ReachesThrough(g: Graph, p: string, i: string, q: string)
    requires p in g && i in g[p].imports && Reaches(g, i, q)
    ensures Reaches(g, p, q)
  {
    var rest :| Chain(g, rest) && rest[0] == i && rest[|rest| - 1] == q;
    var chain := [p] + rest;
    forall k | 0 <= k < |chain| - 1 ensures chain[k + 1] in g[chain[k]].imports {
      if k > 0 { assert rest[k] in g[rest[k - 1]].imports; }
    }
    assert Chain(g, chain) && chain[0] == p && chain[|chain| - 1] == q;
  }

  /** What is reached from `p` is `p` or is reached from one of its imports in the graph. */
  lemma {:induction false} ReachesFrom(g: Graph, p: string, q: string)
    requires Reaches(g, p, q) && p != q
    ensures p in g && exists i :: i in g[p].imports && i in g && Reaches(g, i, q)
  {
    var chain :| Chain(g, chain) && chain[0] == p && chain[|chain| - 1] == q;
    assert |chain| > 1 && chain[1] in g[chain[0]].imports;
    var rest := chain[1..];
    forall k | 0 <= k < |rest| - 1
      ensures rest[k + 1] in g[rest[k]].imports
    {
      assert chain[k + 2] in g[chain[k + 1]].imports;
    }
    assert Chain(g, rest) && rest[0] == chain[1] && rest[|rest| - 1] == q;
  }

  /** Two graphs with the same closure of `p` have the same closures of its imports. */
  lemma {:induction false} ClosureOfImport(g: Graph, h: Graph, p: string, i: string)
    requires SameClosure(g, h, p) && p in g && i in g[p].imports
    ensures p in h && g[p] == h[p] && (i in g <==> i in h) && SameClosure(g, h, i)
  {
    hide Reaches;
    ReachesItself(g, p);
    ReachesItself(g, i);
    ReachesItself(h, i);
    if i in g { ReachesThrough(g, p, i, i); }
    if i in h { ReachesThrough(h, p, i, i); }
    forall q
      ensures (Reaches(g, i, q) <==> Reaches(h, i, q)) && (Reaches(g, i, q) ==> q in g && q in h && g[q] == h[q])
    {
      if Reaches(g, i, q) { ReachesThrough(g, p, i, q); SameReach(g, h, p, i, q); }
      if Reaches(h, i, q) { ReachesThrough(h, p, i, q); SameReach(h, g, p, i, q); }
    }
  }

  lemma {:induction false} SameReach(g: Graph, h: Graph, p: string, i: string, q: string)
    requires SameClosure(g, h, p) && p in g && i in g[p].imports && Reaches(g, i, q)
    ensures Reaches(h, i, q)
  {
    hide Reaches;
    var chain: seq<string> := ChainTo(g, i, q);
    forall k | 0 <= k < |chain| ensures Reaches(g, p, chain[k]) {
      assert Chain(g, chain[..k + 1]);
      ReachesBy(g, chain[..k + 1]);
      ReachesThrough(g, p, i, chain[k]);
    }
    forall k | 0 <= k < |chain| ensures chain[k] in h && g[chain[k]] == h[chain[k]] { }
    assert Chain(h, chain);
    ReachesBy(h, chain);
  }

  lemma {:induction false} ReachesBy(g: Graph, chain: seq<string>)
    requires Chain(g, chain)
    ensures Reaches(g, chain[0], chain[|chain| - 1])
  {
  }

  ghost function ChainTo(g: Graph, p: string, q: string): (chain: seq<string>)
    requires Reaches(g, p, q)
    ensures Chain(g, chain) && chain[0] == p && chain[|chain| - 1] == q
  {
    var chain :| Chain(g, chain) && chain[0] == p && chain[|chain| - 1] == q;
    chain
  }

  /** The converse of `MerkleSound`: the digest depends on nothing outside the import closure. */
  lemma {:induction false} ClosureDigests(w: World, g: Graph, rg: string -> nat, h: Graph, rh: string -> nat, p: string)
    requires Acyclic(g, rg) && Acyclic(h, rh) && SameClosure(g, h, p)
    ensures NodeDigest(w, g, rg, p) == NodeDigest(w, h, rh, p)
    decreases rg(p), 1, 0
  {
    hide SameClosure, Acyclic, Lines, ImportFields;
    InBoth(g, h, p);
    if p in g { ClosureFields(w, g, rg, h, rh, p, 0); }
  }

  lemma {:induction false} InBoth(g: Graph, h: Graph, p: string)
    requires SameClosure(g, h, p)
    ensures (p in g <==> p in h) && (p in g ==> g[p] == h[p])
  {
    hide Reaches;
    ReachesItself(g, p);
    ReachesItself(h, p);
  }

  lemma {:induction false} ClosureFields(w: World, g: Graph, rg: string -> nat, h: Graph, rh: string -> nat, p: string,
                                         i: nat)
    requires Acyclic(g, rg) && Acyclic(h, rh) && SameClosure(g, h, p) && p in g && p in h && g[p] == h[p]
    requires i <= |g[p].imports|
    ensures ImportFields(w, g, rg, p, i) == ImportFields(w, h, rh, p, i)
    decreases rg(p), 0, |g[p].imports| - i
  {
    hide SameClosure, NodeDigest;
    if i < |g[p].imports| {
      var q := g[p].imports[i];
      ClosureOfImport(g, h, p, q);
      if q in g { ClosureDigests(w, g, rg, h, rh, q); }
      ClosureFields(w, g, rg, h, rh, p, i + 1);
    }
  }

  /** Two digests of a package are equal if and only if its import closures are. */
  lemma {:induction false} MerkleExact(w: World, g: Graph, rg: string -> nat, h: Graph, rh: string -> nat, p: string)
    requires CollisionFree(w) && Acyclic(g, rg) && Acyclic(h, rh) && Recorded(g) && Recorded(h)
    ensures NodeDigest(w, g, rg, p) == NodeDigest(w, h, rh, p) <==> SameClosure(g, h, p)
  {
    hide NodeDigest, Acyclic, Recorded, CollisionFree;
    if SameClosure(g, h, p) {
      ClosureDigests(w, g, rg, h, rh, p);
    }
    if NodeDigest(w, g, rg, p) == NodeDigest(w, h, rh, p) {
      forall q | Reaches(g, p, q)
        ensures Reaches(h, p, q) && q in g && q in h && g[q] == h[q]
      {
        DigestReaches(w, g, rg, h, rh, p, q);
      }
      forall q | Reaches(h, p, q) ensures Reaches(g, p, q) { DigestReaches(w, h, rh, g, rg, p, q); }
    }
  }

  lemma {:induction false} DigestReaches(w: World, g: Graph, rg: string -> nat, h: Graph, rh: string -> nat, p: string,
                                         q: string)
    requires CollisionFree(w) && Acyclic(g, rg) && Acyclic(h, rh) && Recorded(g) && Recorded(h)
    requires NodeDigest(w, g, rg, p) == NodeDigest(w, h, rh, p) && Reaches(g, p, q)
    ensures Reaches(h, p, q) && q in g && q in h && g[q] == h[q]
  {
    hide NodeDigest, Acyclic, Recorded, CollisionFree, Reaches;
    var chain := ChainTo(g, p, q);
    MerkleSound(w, g, rg, h, rh, chain);
    ReachesBy(h, chain);
    assert chain[|chain| - 1] in g;
  }

  // ----- entry keys -----

  const GENERATED: string := "generated"
  const COPIED: string := "copied"

  /** generatedKey; `identity` holds the schema, compiler and request fields. */
  ghost function GeneratedKey(w: World, identity: seq<Field>, digest: string): string
  {
    w.hash(Lines(w.printable, identity + [Field("kind", GENERATED), Field("package-digest", digest)]))
  }

  function FileFields(files: seq<(string, string)>): (r: seq<Field>)
    ensures forall i :: 0 <= i < |r| ==> r[i].key == "override-file" || r[i].key == "override-file-sha256"
  {
    if files == [] then []
    else [Field("override-file", files[0].0), Field("override-file-sha256", files[0].1)] + FileFields(files[1..])
  }

  /** copiedKey; `files` holds the path and digest of each file. */
  ghost function CopiedKey(w: World, identity: seq<Field>, path: string, files: seq<(string, string)>): string
  {
    w.hash(Lines(w.printable, identity + [Field("kind", COPIED), Field("package", path)] + FileFields(files)))
  }

  /** Equal keys of generated entries mean the same request, the same compiler, and the same
      records over the whole import closure. */
  lemma {:induction false} GeneratedKeySound(w: World, a: seq<Field>, b: seq<Field>, g: Graph, rg: string -> nat,
                                             h: Graph, rh: string -> nat, chain: seq<string>)
    requires CollisionFree(w) && Acyclic(g, rg) && Acyclic(h, rh) && Recorded(g) && Recorded(h) && PlainKeys(a)
    requires PlainKeys(b)
    requires Chain(g, chain)
    requires GeneratedKey(w, a, NodeDigest(w, g, rg, chain[0])) == GeneratedKey(w, b, NodeDigest(w, h, rh, chain[0]))
    ensures a == b && Chain(h, chain) && forall k :: 0 <= k < |chain| ==> g[chain[k]] == h[chain[k]]
  {
    hide Lines, NodeDigest, Acyclic, Recorded, PlainKeys;
    KeyParts(w, a, b, NodeDigest(w, g, rg, chain[0]), NodeDigest(w, h, rh, chain[0]));
    MerkleSound(w, g, rg, h, rh, chain);
  }

  /** Generated entries of a package have the same key if and only if request, compiler and the
      import closure of the package are the same. */
  lemma {:induction false} GeneratedKeyExact(w: World, a: seq<Field>, b: seq<Field>, g: Graph, rg: string -> nat,
                                             h: Graph, rh: string -> nat, p: string)
    requires CollisionFree(w) && Acyclic(g, rg) && Acyclic(h, rh) && Recorded(g) && Recorded(h) && PlainKeys(a)
    requires PlainKeys(b)
    ensures GeneratedKey(w, a, NodeDigest(w, g, rg, p)) == GeneratedKey(w, b, NodeDigest(w, h, rh, p)) <==>
      a == b && SameClosure(g, h, p)
  {
    hide Lines, NodeDigest, Acyclic, Recorded, PlainKeys, SameClosure, CollisionFree, GeneratedKey;
    MerkleExact(w, g, rg, h, rh, p);
    if GeneratedKey(w, a, NodeDigest(w, g, rg, p)) == GeneratedKey(w, b, NodeDigest(w, h, rh, p)) {
      KeyParts(w, a, b, NodeDigest(w, g, rg, p), NodeDigest(w, h, rh, p));
    }
  }

  lemma {:induction false} KeyParts(w: World, a: seq<Field>, b: seq<Field>, d: string, e: string)
    requires CollisionFree(w) && PlainKeys(a) && PlainKeys(b) && GeneratedKey(w, a, d) == GeneratedKey(w, b, e)
    ensures a == b && d == e
  {
    hide Lines;
    var x := [Field("kind", GENERATED), Field("package-digest", d)];
    var y := [Field("kind", GENERATED), Field("package-digest", e)];
    TwoMore(a, x);
    TwoMore(b, y);
    LinesInjective(w.printable, a + x, b + y);
    SameEnds(a, x, b, y);
    assert x[1] == y[1];
  }

  lemma {:induction false} TwoMore(a: seq<Field>, x: seq<Field>)
    requires PlainKeys(a) && PlainKeys(x)
    ensures PlainKeys(a + x)
  {
  }

  lemma {:induction false} SameEnds(a: seq<Field>, x: seq<Field>, b: seq<Field>, y: seq<Field>)
    requires a + x == b + y && |x| == |y|
    ensures a == b && x == y
  {
    assert |a + x| == |b + y|;
    assert a == (a + x)[..|a|] && b == (b + y)[..|a|];
    assert x == (a + x)[|a|..] && y == (b + y)[|a|..];
  }

  lemma {:induction false} LastField(a: seq<Field>, x: seq<Field>)
    requires x != []
    ensures (a + x)[|a + x| - 1] == x[|x| - 1]
  {
  }

  lemma {:induction false} EndKeys(digest: string, path: string)
    ensures PlainKeys([Field("kind", GENERATED), Field("package-digest", digest)]) &&
      PlainKeys([Field("kind", COPIED), Field("package", path)])
  {
  }

  lemma {:induction false} FileKeys(files: seq<Field>)
    requires forall i :: 0 <= i < |files| ==> files[i].key == "override-file" || files[i].key == "override-file-sha256"
    ensures PlainKeys(files)
  {
  }

  /** A generated and a copied entry never share a key. */
  lemma {:induction false} KindsApart(w: World, a: seq<Field>, digest: string, b: seq<Field>, path: string,
                                      files: seq<(string, string)>)
    requires CollisionFree(w) && PlainKeys(a) && PlainKeys(b)
    ensures GeneratedKey(w, a, digest) != CopiedKey(w, b, path, files)
  {
    hide Lines, FileFields, PlainKeys;
    var x, files1 := [Field("kind", GENERATED), Field("package-digest", digest)], FileFields(files);
    var y := [Field("kind", COPIED), Field("package", path)];
    EndKeys(digest, path);
    FileKeys(files1);
    TwoMore(a, x);
    TwoMore(b, y);
    TwoMore(b + y, files1);
    LastField(a, x);
    CopiedEnd(b, path, files1);
    var u, v := a + x, b + y + files1;
    if Lines(w.printable, u) == Lines(w.printable, v) { LinesInjective(w.printable, u, v); }
  }

  /** Equal keys of copied entries mean the same request, the same compiler, the same package and
      the same files with the same digests; no identity field is called "kind". */
  lemma {:induction false} CopiedKeySound(w: World, a: seq<Field>, b: seq<Field>, p: string, q: string,
                                          files: seq<(string, string)>, others: seq<(string, string)>)
    requires CollisionFree(w) && PlainKeys(a) && PlainKeys(b) && forall f :: f in a || f in b ==> f.key != "kind"
    requires CopiedKey(w, a, p, files) == CopiedKey(w, b, q, others)
    ensures a == b && p == q && files == others
  {
    hide Lines, FileFields, PlainKeys;
    CopiedPlain(a, p, files);
    CopiedPlain(b, q, others);
    var x, y := [Field("kind", COPIED), Field("package", p)] + FileFields(files),
        [Field("kind", COPIED), Field("package", q)] + FileFields(others);
    assert a + [Field("kind", COPIED), Field("package", p)] + FileFields(files) == a + x;
    assert b + [Field("kind", COPIED), Field("package", q)] + FileFields(others) == b + y;
    LinesInjective(w.printable, a + x, b + y);
    SplitAtKind(a, x, b, y);
    assert FileFields(files) == x[2..] && FileFields(others) == y[2..];
    assert x[1] == y[1];
    FileFieldsInjective(files, others);
  }

  lemma {:induction false} CopiedPlain(a: seq<Field>, p: string, files: seq<(string, string)>)
    requires PlainKeys(a)
    ensures PlainKeys(a + [Field("kind", COPIED), Field("package", p)] + FileFields(files))
  {
    hide FileFields, PlainKeys;
    EndKeys("", p);
    FileKeys(FileFields(files));
    TwoMore(a, [Field("kind", COPIED), Field("package", p)]);
    TwoMore(a + [Field("kind", COPIED), Field("package", p)], FileFields(files));
  }

  /** The first field called "kind" is where the identity ends. */
  lemma {:induction false} SplitAtKind(a: seq<Field>, x: seq<Field>, b: seq<Field>, y: seq<Field>)
    requires a + x == b + y && x != [] && y != [] && x[0].key == y[0].key == "kind"
    requires forall f :: f in a || f in b ==> f.key != "kind"
    ensures a == b && x == y
  {
    assert (a + x)[|a|] == x[0] && (b + y)[|b|] == y[0];
    forall k | 0 <= k < |a| ensures (a + x)[k].key != "kind" { assert (a + x)[k] in a; }
    forall k | 0 <= k < |b| ensures (b + y)[k].key != "kind" { assert (b + y)[k] in b; }
    assert |x| == |y| by { assert |a + x| == |b + y|; }
    SameEnds(a, x, b, y);
  }

  lemma {:induction false} FileFieldsInjective(a: seq<(string, string)>, b: seq<(string, string)>)
    requires FileFields(a) == FileFields(b)
    ensures a == b
  {
    if a != [] && b != [] {
      var x, y := FileFields(a), FileFields(b);
      assert x[0] == y[0] && x[1] == y[1];
      assert FileFields(a[1..]) == x[2..] && FileFields(b[1..]) == y[2..];
      FileFieldsInjective(a[1..], b[1..]);
    }
  }

  lemma {:induction false} CopiedEnd(b: seq<Field>, path: string, files: seq<Field>)
    requires forall i :: 0 <= i < |files| ==> files[i].key == "override-file" || files[i].key == "override-file-sha256"
    ensures var v := b + [Field("kind", COPIED), Field("package", path)] + files;
      v != [] && v[|v| - 1].key != "package-digest"
  {
  }

  // ----- the memo -----

  /** compilerCacheKeyOwner. */
  class KeyOwner {
    const w: World
    const graph: Graph
    ghost const rank: string -> nat
    var graphDigests: map<string, string>

    constructor (w: World, graph: Graph, ghost rank: string -> nat)
      requires Acyclic(graph, rank)
      ensures this.w == w && this.graph == graph && this.rank == rank && Valid()
    {
      this.w, this.graph, this.rank := w, graph, rank;
      graphDigests := map[];
    }

    ghost predicate Valid()
      reads this
    {
      Acyclic(graph, rank) && forall p :: p in graphDigests ==> graphDigests[p] == NodeDigest(w, graph, rank, p)
    }

    /** The memoised digest is the plain recursive one. */
    method Digest(p: string) returns (digest: string)
      requires Valid()
      modifies this`graphDigests
      ensures Valid() && digest == NodeDigest(w, graph, rank, p)
      decreases rank(p)
    {
      hide NodeDigest, ImportFields, Lines, Line, Acyclic;
      if p in graphDigests && graphDigests[p] != "" { return graphDigests[p]; }
      DigestIs(w, graph, rank, p);
      if p !in graph { return ""; }
      var node := graph[p];
      ghost var fields, all := node.recorded, node.recorded + ImportFields(w, graph, rank, p, 0);
      var text := Lines(w.printable, node.recorded);
      for i := 0 to |node.imports|
        invariant Valid()
        invariant fields + ImportFields(w, graph, rank, p, i) == all
        invariant text == Lines(w.printable, fields)
      {
        var q := node.imports[i];
        ImportIs(w, graph, rank, p, i);
        ghost var rest := ImportFields(w, graph, rank, p, i + 1);
        var f := Field("import", q);
        LinesMore(w.printable, fields, f);
        text := text + Line(w.printable, f);
        if q in graph {
          RankFalls(graph, rank, p, q);
          var inner := Digest(q);
          var d := Field("import-digest", inner);
          LinesMore(w.printable, fields + [f], d);
          text := text + Line(w.printable, d);
          Joined(fields, [f], [d], rest);
          fields := fields + [f] + [d];
        } else {
          Joined(fields, [f], [], rest);
          fields := fields + [f];
        }
      }
      ImportIs(w, graph, rank, p, |node.imports|);
      assert fields == all;
      digest := w.hash(text);
      graphDigests := graphDigests[p := digest];
    }
  }

  lemma {:induction false} Joined(a: seq<Field>, b: seq<Field>, c: seq<Field>, d: seq<Field>)
    ensures a + (b + c + d) == a + b + c + d && (c == [] ==> a + (b + c + d) == a + b + d)
  {
  }

  lemma {:induction false} RankFalls(g: Graph, rank: string -> nat, p: string, q: string)
    requires Acyclic(g, rank) && p in g && q in g && q in g[p].imports
    ensures rank(q) < rank(p)
  {
  }

  lemma {:induction false} DigestIs(w: World, g: Graph, rank: string -> nat, p: string)
    requires Acyclic(g, rank)
    ensures NodeDigest(w, g, rank, p) ==
      if p !in g then "" else w.hash(Lines(w.printable, g[p].recorded + ImportFields(w, g, rank, p, 0)))
  {
  }

  lemma {:induction false} ImportIs(w: World, g: Graph, rank: string -> nat, p: string, i: nat)
    requires Acyclic(g, rank) && p in g && i <= |g[p].imports|
    ensures ImportFields(w, g, rank, p, i) ==
      if i == |g[p].imports| then []
      else
        [Field("import", g[p].imports[i])] +
        (if g[p].imports[i] in g then [Field("import-digest", NodeDigest(w, g, rank, g[p].imports[i]))] else []) +
        ImportFields(w, g, rank, p, i + 1)
  {
  }

  lemma {:induction false} LinesMore(printable: char -> bool, fields: seq<Field>, f: Field)
    ensures Lines(printable, fields + [f]) == Lines(printable, fields) + Line(printable, f)
  {
    if fields != [] {
      assert (fields + [f])[1..] == fields[1..] + [f];
      LinesMore(printable, fields[1..], f);
    }
  }
}
