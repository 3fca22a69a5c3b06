/**
 * Python's `template.format(*args, **kwargs)` for templates whose replacement
 * fields are `{}`, `{<index>}` or `{<name>}`, with `{{` and `}}` as escapes.
 * Every message the engine logs, every team name and every seeded
 * configuration value passes through it.
 */
module PyFormat {
  import opened Wrappers
  import opened Text

  /** How the replacement fields of one call have been numbered so far. */
  datatype Numbering = Unset | Auto(next: nat) | Manual

  function ValueError(message: string): Exception
  {
    Exception("ValueError", message)
  }

  /** `t` holds no brace, so formatting copies it verbatim. */
  predicate NoBraces(t: string)
  {
    forall i :: 0 <= i < |t| ==> t[i] != '{' && t[i] != '}'
  }

  /** A field name that Python looks up among the keyword arguments. */
  predicate IsKeywordName(name: string)
  {
    name != [] && !AllDigits(name) && NoBraces(name)
  }

  const ManualToAutomatic := ValueError("cannot switch from manual field specification to automatic field numbering")
  const AutomaticToManual := ValueError("cannot switch from automatic field numbering to manual field specification")

  /** A positional field past the last argument. */
  function IndexOutOfRange(k: nat): Exception
  {
    Exception("IndexError", "Replacement index " + NatToString(k) + " out of range for positional args tuple")
  }

  /** The value of one replacement field, and the numbering after it. */
  function Field(name: string, args: seq<string>, kwargs: map<string, string>, n: Numbering)
    : (r: Result<(string, Numbering), Exception>)
    // `{}`: the next positional argument, numbering on by one; never after a manual field
    ensures name == [] ==> (r.Success? <==> !n.Manual? && NextAuto(n) < |args|)
    ensures name == [] && r.Success? ==> r.value == (args[NextAuto(n)], Auto(NextAuto(n) + 1))
    ensures name == [] && n.Manual? ==> r == Failure(ManualToAutomatic)
    // `{<index>}`: that positional argument, numbering manual from now on; never after an automatic field
    ensures name != [] && AllDigits(name) ==> (r.Success? <==> !n.Auto? && DecimalValue(name) < |args|)
    ensures name != [] && AllDigits(name) && r.Success? ==> r.value == (args[DecimalValue(name)], Manual)
    ensures name != [] && AllDigits(name) && n.Auto? ==> r == Failure(AutomaticToManual)
    // `{<name>}`: the keyword argument, numbering untouched; a missing one raises KeyError
    ensures IsKeywordName(name) ==> (r.Success? <==> name in kwargs)
    ensures IsKeywordName(name) && r.Success? ==> r.value == (kwargs[name], n)
    ensures IsKeywordName(name) && r.Failure? ==> r.error.kind == "KeyError"
  {
    if name == [] then
      if n.Manual? then
        Failure(ManualToAutomatic)
      else
        var k := if n.Auto? then n.next else 0;
        if k < |args| then Success((args[k], Auto(k + 1)))
        else Failure(IndexOutOfRange(k))
    else if !NoBraces(name) then
      Failure(ValueError("unexpected '{' in field name"))
    else if AllDigits(name) then
      if n.Auto? then
        Failure(AutomaticToManual)
      else
        var k := DecimalValue(name);
        if k < |args| then Success((args[k], Manual))
        else Failure(IndexOutOfRange(k))
    else if name in kwargs then
      Success((kwargs[name], n))
    else
      Failure(Exception("KeyError", "'" + name + "'"))
  }

  /** Puts `p` in front of a successful result. */
  function Prefix(p: string, r: Result<string, Exception>): Result<string, Exception>
  {
    match r
    case Success(s) => Success(p + s)
    case Failure(e) => Failure(e)
  }

  /** Formats `t` from left to right; the first malformed or unresolvable field raises. */
  function FormatFrom(t: string, args: seq<string>, kwargs: map<string, string>, n: Numbering)
    : Result<string, Exception>
    decreases |t|
  {
    if t == [] then Success([])
    else if t[0] == '{' then
      if |t| >= 2 && t[1] == '{' then Prefix("{", FormatFrom(t[2..], args, kwargs, n))
      else
        match FindFrom(t, "}", 1)
        case None =>
          Failure(ValueError(if |t| == 1 then "Single '{' encountered in format string"
                             else "expected '}' before end of string"))
        case Some(j) =>
          match Field(t[1..j], args, kwargs, n)
          case Failure(e) => Failure(e)
          case Success(field) => Prefix(field.0, FormatFrom(t[j + 1..], args, kwargs, field.1))
    else if t[0] == '}' then
      if |t| >= 2 && t[1] == '}' then Prefix("}", FormatFrom(t[2..], args, kwargs, n))
      else Failure(ValueError("Single '}' encountered in format string"))
    else Prefix([t[0]], FormatFrom(t[1..], args, kwargs, n))
  }

  /**
   * Python's `t.format(*args, **kwargs)`: brace-free text comes back as it
   * is, and a `}` that neither closes a field nor is doubled raises.
   */
  function Format(t: string, args: seq<string>, kwargs: map<string, string>): (r: Result<string, Exception>)
    ensures NoBraces(t) ==> r == Success(t)
    ensures t != [] && t[0] == '}' && (|t| == 1 || t[1] != '}') ==> r.Failure?
  {
    if NoBraces(t) then
      FormatLiteral(t, [], args, kwargs, Unset);
      assert t + [] == t;
      FormatFrom(t, args, kwargs, Unset)
    else
      FormatFrom(t, args, kwargs, Unset)
  }

  /** `lits[0] + vals[0] + lits[1] + ... + lits[n]`: literals with values between them. */
  function Fill(lits: seq<string>, vals: seq<string>): string
    requires |lits| == |vals| + 1
  {
    if vals == [] then lits[0] else lits[0] + vals[0] + Fill(lits[1..], vals[1..])
  }

  /** Index of the next automatically numbered field. */
  function NextAuto(n: Numbering): nat
  {
    match n
    case Auto(k) => k
    case _ => 0
  }

  /** Brace-free text is copied verbatim, whatever follows it. */
  lemma {:induction false} FormatLiteral(lit: string, rest: string, args: seq<string>,
                                          kwargs: map<string, string>, n: Numbering)
    requires NoBraces(lit)
    ensures FormatFrom(lit + rest, args, kwargs, n) == Prefix(lit, FormatFrom(rest, args, kwargs, n))
  {
    if lit == [] {
      assert lit + rest == rest;
      PrefixEmpty(FormatFrom(rest, args, kwargs, n));
    } else {
      var t := lit + rest;
      assert t[0] == lit[0] && t[1..] == lit[1..] + rest;
      FormatLiteral(lit[1..], rest, args, kwargs, n);
      assert [lit[0]] + lit[1..] == lit;
      PrefixPrefix([lit[0]], lit[1..], FormatFrom(rest, args, kwargs, n));
    }
  }

  lemma PrefixEmpty(r: Result<string, Exception>)
    ensures Prefix([], r) == r
  {
    if r.Success? {
      assert [] + r.value == r.value;
    }
  }

  lemma PrefixPrefix(a: string, b: string, r: Result<string, Exception>)
    ensures Prefix(a, Prefix(b, r)) == Prefix(a + b, r)
  {
    if r.Success? {
      assert a + (b + r.value) == (a + b) + r.value;
    }
  }

  /** A template without braces formats to itself. */
  lemma FormatNoBraces(t: string, args: seq<string>, kwargs: map<string, string>)
    requires NoBraces(t)
    ensures Format(t, args, kwargs) == Success(t)
  {
    FormatLiteral(t, [], args, kwargs, Unset);
    assert t + [] == t;
  }

  /** An automatically numbered field `{}` takes the next positional argument. */
  lemma FormatAutoField(rest: string, args: seq<string>, kwargs: map<string, string>, n: Numbering)
    requires n != Manual && NextAuto(n) < |args|
    ensures FormatFrom("{}" + rest, args, kwargs, n)
         == Prefix(args[NextAuto(n)], FormatFrom(rest, args, kwargs, Auto(NextAuto(n) + 1)))
  {
    var t := "{}" + rest;
    assert t[0] == '{' && t[1] == '}';
    assert FindFrom(t, "}", 1) == Some(1) by { assert t[1..2] == "}"; }
    assert t[1..1] == [] && t[2..] == rest;
  }

  /** A keyword field `{name}` takes the keyword argument `name` and leaves the numbering alone. */
  lemma FormatKeywordField(name: string, rest: string, args: seq<string>,
                           kwargs: map<string, string>, n: Numbering)
    requires IsKeywordName(name) && name in kwargs
    ensures FormatFrom("{" + name + "}" + rest, args, kwargs, n)
         == Prefix(kwargs[name], FormatFrom(rest, args, kwargs, n))
  {
    var t := "{" + name + "}" + rest;
    var j := |name| + 1;
    assert t[0] == '{' && t[1] != '{';
    assert FindFrom(t, "}", 1) == Some(j) by {
      assert t[j..j + 1] == "}";
      forall i: nat | 1 <= i < j ensures !OccursAt(t, "}", i) {
        assert t[i] == name[i - 1];
      }
      FindFirstAt(t, "}", 1, j);
    }
    assert t[1..j] == name && t[j + 1..] == rest;
  }

  /**
   * Literals joined by `{}` take the positional arguments in order:
   * `Join(lits, "{}").format(*args)` is `Fill(lits, args)`.
   */
  lemma {:induction false} FormatPositional(lits: seq<string>, args: seq<string>,
                                             kwargs: map<string, string>, n: Numbering)
    requires n != Manual && NextAuto(n) <= |args|
    requires |lits| == |args| - NextAuto(n) + 1
    requires forall i :: 0 <= i < |lits| ==> NoBraces(lits[i])
    ensures FormatFrom(Join(lits, "{}"), args, kwargs, n) == Success(Fill(lits, args[NextAuto(n)..]))
    decreases |lits|
  {
    var k := NextAuto(n);
    if |lits| == 1 {
      FormatLiteral(lits[0], [], args, kwargs, n);
      assert lits[0] + [] == lits[0];
    } else {
      var rest := Join(lits[1..], "{}");
      assert Join(lits, "{}") == lits[0] + ("{}" + rest);
      FormatLiteral(lits[0], "{}" + rest, args, kwargs, n);
      FormatAutoField(rest, args, kwargs, n);
      FormatPositional(lits[1..], args, kwargs, Auto(k + 1));
      assert args[k..][1..] == args[k + 1..];
      var tail := Fill(lits[1..], args[k + 1..]);
      PrefixPrefix(lits[0], args[k], Success(tail));
      assert Fill(lits, args[k..]) == lits[0] + args[k] + tail;
    }
  }

  /** Every `{name}` between the literals is replaced by the keyword argument `name`. */
  lemma {:induction false} FormatKeyword(lits: seq<string>, name: string, args: seq<string>,
                                          kwargs: map<string, string>, n: Numbering)
    requires lits != [] && IsKeywordName(name) && name in kwargs
    requires forall i :: 0 <= i < |lits| ==> NoBraces(lits[i])
    ensures FormatFrom(Join(lits, "{" + name + "}"), args, kwargs, n) == Success(Join(lits, kwargs[name]))
    decreases |lits|
  {
    var field := "{" + name + "}";
    if |lits| == 1 {
      FormatLiteral(lits[0], [], args, kwargs, n);
      assert lits[0] + [] == lits[0];
    } else {
      var rest := Join(lits[1..], field);
      assert Join(lits, field) == lits[0] + (field + rest);
      FormatLiteral(lits[0], field + rest, args, kwargs, n);
      FormatKeywordField(name, rest, args, kwargs, n);
      FormatKeyword(lits[1..], name, args, kwargs, n);
      var tail := Join(lits[1..], kwargs[name]);
      PrefixPrefix(lits[0], kwargs[name], Success(tail));
      assert Join(lits, kwargs[name]) == lits[0] + kwargs[name] + tail;
    }
  }

  /** If `pat` first occurs at `j` from `from` on, the search finds `j`. */
  lemma FindFirstAt(s: string, pat: string, from: nat, j: nat)
    requires from <= j && OccursAt(s, pat, j)
    requires forall i: nat :: from <= i < j ==> !OccursAt(s, pat, i)
    ensures FindFrom(s, pat, from) == Some(j)
  {
  }
}
