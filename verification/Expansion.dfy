/** Environment references in configuration strings: `${NAME}`, `${NAME:-default}` and the escape `$${`. */
module Expansion {
  import opened Runtime

  datatype Fault = Unterminated | InvalidName(name: string) | NotSet(name: string)

  datatype Expansion = Expanded(text: string) | Failed(fault: Fault)

  /** What the process environment answers. */
  type Environment = string -> Option<string>

  predicate IsLetter(c: char) {
    'a' <= c <= 'z' || 'A' <= c <= 'Z'
  }

  predicate IsNameChar(c: char) {
    IsLetter(c) || '0' <= c <= '9' || c == '_'
  }

  predicate ValidName(name: string) {
    name != [] && (IsLetter(name[0]) || name[0] == '_') && forall i :: 0 <= i < |name| ==> IsNameChar(name[i])
  }

  /** The first position of `c` at or after `from`, or the length. */
  function Find(s: string, c: char, from: nat): (r: nat)
    requires from <= |s|
    ensures from <= r <= |s| && (r < |s| ==> s[r] == c)
    ensures forall k :: from <= k < r ==> s[k] != c
    decreases |s| - from
  {
    if from == |s| || s[from] == c then from else Find(s, c, from + 1)
  }

  predicate SeparatorAt(s: string, i: nat) {
    i + 1 < |s| && s[i] == ':' && s[i + 1] == '-'
  }

  /** The first `:-` at or after `from`, or the length. */
  function FindSeparator(s: string, from: nat): (r: nat)
    requires from <= |s|
    ensures from <= r <= |s| && (r < |s| ==> SeparatorAt(s, r))
    ensures forall k :: from <= k < r ==> !SeparatorAt(s, k)
    decreases |s| - from
  {
    if from == |s| || SeparatorAt(s, from) then from else FindSeparator(s, from + 1)
  }

  /** The value of the text between the braces. */
  function Resolve(reference: string, env: Environment): Expansion {
    var separator := FindSeparator(reference, 0);
    var name := reference[..separator];
    if !ValidName(name) then Failed(InvalidName(name))
    else if env(name).Some? then Expanded(env(name).value)
    else if separator < |reference| then Expanded(reference[separator + 2..])
    else Failed(NotSet(name))
  }

  function Prepend(text: string, r: Expansion): Expansion {
    if r.Expanded? then Expanded(text + r.text) else r
  }

  /** Left to right, one reference at a time; a value is not looked at again. */
  function Expand(s: string, env: Environment): Expansion
    decreases |s|
  {
    if s == [] then Expanded([])
    else if s[0] != '$' then Prepend([s[0]], Expand(s[1..], env))
    else if "$${" <= s then Prepend("${", Expand(s[3..], env))
    else if !("${" <= s) then Prepend("$", Expand(s[1..], env))
    else
      var close := Find(s, '}', 2);
      if close == |s| then Failed(Unterminated)
      else
        var value := Resolve(s[2..close], env);
        if value.Failed? then value else Prepend(value.text, Expand(s[close + 1..], env))
  }

  // ---------------------------------------------------------------- the loop

  lemma {:induction false} PrependTwice(a: string, b: string, r: Expansion)
    ensures Prepend(a, Prepend(b, r)) == Prepend(a + b, r)
  {
  }

  lemma {:induction false} PrependNothing(r: Expansion)
    ensures Prepend([], r) == r
  {
  }

  /** Text without a dollar is copied. */
  lemma {:induction false} ExpandCopies(s: string, m: nat, env: Environment)
    requires m <= |s| && forall k :: 0 <= k < m ==> s[k] != '$'
    ensures Expand(s, env) == Prepend(s[..m], Expand(s[m..], env))
    decreases m
  {
    if m == 0 {
      assert s[0..] == s;
      PrependNothing(Expand(s, env));
    } else {
      ExpandCopies(s[1..], m - 1, env);
      assert s[1..][m - 1..] == s[m..] && [s[0]] + s[1..][..m - 1] == s[..m];
      PrependTwice([s[0]], s[1..][..m - 1], Expand(s[m..], env));
    }
  }

  /** What happens at a dollar: the text it stands for and where to go on. */
  method AtDollar(source: string, marker: nat, env: Environment) returns (r: Expansion, next: nat)
    requires marker < |source| && source[marker] == '$'
    ensures r.Failed? ==> Expand(source[marker..], env) == r
    ensures r.Expanded? ==>
      marker < next <= |source| && Expand(source[marker..], env) == Prepend(r.text, Expand(source[next..], env))
  {
    var tail := source[marker..];
    if "$${" <= tail {
      assert tail[3..] == source[marker + 3..];
      return Expanded("${"), marker + 3;
    }
    if !("${" <= tail) {
      assert tail[1..] == source[marker + 1..];
      return Expanded("$"), marker + 1;
    }
    var close := Find(tail, '}', 2);
    if close == |tail| {
      return Failed(Unterminated), marker;
    }
    assert tail[close + 1..] == source[marker + close + 1..];
    return Resolve(tail[2..close], env), marker + close + 1;
  }

  /** Copies up to each dollar and replaces what stands there. */
  method ExpandString(source: string, env: Environment) returns (r: Expansion)
    ensures r == Expand(source, env)
  {
    var result, position := [], 0;
    assert source[0..] == source;
    PrependNothing(Expand(source, env));
    while position < |source|
      invariant position <= |source| && Expand(source, env) == Prepend(result, Expand(source[position..], env))
    {
      var marker := Find(source, '$', position);
      ExpandCopies(source[position..], marker - position, env);
      assert source[position..][marker - position..] == source[marker..];
      var copied := source[position..marker];
      assert source[position..][..marker - position] == copied;
      PrependTwice(result, copied, Expand(source[marker..], env));
      result := result + copied;
      if marker == |source| {
        position := marker;
        break;
      }
      var value, next := AtDollar(source, marker, env);
      if value.Failed? {
        return value;
      }
      PrependTwice(result, value.text, Expand(source[next..], env));
      result, position := result + value.text, next;
    }
    assert source[position..] == [];
    assert result + [] == result;
    return Expanded(result);
  }

  // ---------------------------------------------------------------- escaping

  /** Writes every `${` as `$${`. */
  function Escape(s: string): string {
    if s == [] then []
    else if "${" <= s then "$${" + Escape(s[2..])
    else [s[0]] + Escape(s[1..])
  }

  lemma {:induction false} EscapeKeepsFirst(s: string)
    ensures s == [] <==> Escape(s) == []
    ensures s != [] ==> Escape(s)[0] == s[0]
  {
  }

  lemma {:induction false} EscapedDollar(s: string)
    requires s != [] && s[0] == '$' && !("${" <= s)
    ensures Escape(s) == "$" + Escape(s[1..]) && !("$${" <= Escape(s)) && !("${" <= Escape(s))
  {
    var t := s[1..];
    EscapeKeepsFirst(t);
    if t != [] && t[0] == '$' {
      if "${" <= t {
        assert Escape(t)[1] == '$';
      } else {
        EscapeKeepsFirst(t[1..]);
        assert Escape(t) == "$" + Escape(t[1..]);
      }
    }
  }

  /** Expansion undoes escaping, in every environment. */
  lemma {:induction false} ExpandUndoesEscape(s: string, env: Environment)
    ensures Expand(Escape(s), env) == Expanded(s)
    decreases |s|
  {
    if s != [] {
      if "${" <= s {
        ExpandUndoesEscape(s[2..], env);
        assert Escape(s)[3..] == Escape(s[2..]);
        assert "${" + s[2..] == s;
      } else {
        ExpandUndoesEscape(s[1..], env);
        assert Escape(s)[1..] == Escape(s[1..]);
        assert [s[0]] + s[1..] == s;
        if s[0] == '$' {
          EscapedDollar(s);
        }
      }
    }
  }

  // ---------------------------------------------------------------- meaning

  /** The pieces a configuration string is made of. */
  datatype Segment =
    | Plain(c: char)
    | Dollar
    | Escaped
    | Variable(name: string)
    | WithDefault(name: string, default: string)
  {
    predicate Valid() {
      match this
      case Plain(c) => c != '$'
      case Variable(name) => ValidName(name)
      case WithDefault(name, default) => ValidName(name) && forall i :: 0 <= i < |default| ==> default[i] != '}'
      case _ => true
    }

    function Text(): string {
      match this
      case Plain(c) => [c]
      case Dollar => "$"
      case Escaped => "$${"
      case Variable(name) => "${" + name + "}"
      case WithDefault(name, default) => "${" + (name + ":-" + default) + "}"
    }

    function Value(env: Environment): Expansion {
      match this
      case Plain(c) => Expanded([c])
      case Dollar => Expanded("$")
      case Escaped => Expanded("${")
      case Variable(name) => if env(name).Some? then Expanded(env(name).value) else Failed(NotSet(name))
      case WithDefault(name, default) => if env(name).Some? then Expanded(env(name).value) else Expanded(default)
    }
  }

  function Render(segments: seq<Segment>): string {
    if segments == [] then [] else segments[0].Text() + Render(segments[1..])
  }

  /** A lone dollar must not run into what follows. */
  ghost predicate WellFormed(segments: seq<Segment>) {
    segments != [] ==>
      && segments[0].Valid() && WellFormed(segments[1..])
      && (segments[0].Dollar? ==> !("{" <= Render(segments[1..])) && !("${" <= Render(segments[1..])))
  }

  /** Values side by side, stopping at the first variable that has none. */
  function Meaning(segments: seq<Segment>, env: Environment): Expansion {
    if segments == [] then Expanded([])
    else
      var value := segments[0].Value(env);
      if value.Failed? then value else Prepend(value.text, Meaning(segments[1..], env))
  }

  lemma {:induction false} NameHasNoSeparator(reference: string, n: nat)
    requires n <= |reference| && ValidName(reference[..n]) && (n < |reference| ==> SeparatorAt(reference, n))
    ensures FindSeparator(reference, 0) == n
  {
  }

  lemma {:induction false} VariableResolves(name: string, env: Environment)
    requires ValidName(name)
    ensures Resolve(name, env) == Variable(name).Value(env)
  {
    assert name[..|name|] == name;
    NameHasNoSeparator(name, |name|);
  }

  lemma {:induction false} DefaultResolves(name: string, default: string, env: Environment)
    requires ValidName(name)
    ensures Resolve(name + ":-" + default, env) == WithDefault(name, default).Value(env)
  {
    var reference := name + ":-" + default;
    assert reference[..|name|] == name && reference[|name| + 2..] == default;
    NameHasNoSeparator(reference, |name|);
  }

  /** A reference runs to the first closing brace. */
  lemma {:induction false} ExpandReference(reference: string, rest: string, env: Environment)
    requires forall i :: 0 <= i < |reference| ==> reference[i] != '}'
    ensures var value := Resolve(reference, env);
      Expand("${" + reference + "}" + rest, env) == if value.Failed? then value else Prepend(value.text, Expand(rest, env))
  {
    var s := "${" + reference + "}" + rest;
    var close := |reference| + 2;
    assert s[0] == '$' && s[1] == '{' && s[close] == '}';
    forall k | 2 <= k < close ensures s[k] != '}' {
      assert s[k] == reference[k - 2];
    }
    assert Find(s, '}', 2) == close;
    assert s[2..close] == reference && s[close + 1..] == rest;
  }

  /** Expanding one segment in front of the rest of a string. */
  lemma {:induction false} ExpandSegment(segment: Segment, rest: string, env: Environment)
    requires segment.Valid() && (segment.Dollar? ==> !("{" <= rest) && !("${" <= rest))
    ensures var value := segment.Value(env);
      Expand(segment.Text() + rest, env) == if value.Failed? then value else Prepend(value.text, Expand(rest, env))
  {
    match segment
    case Plain(c) =>
      assert ([c] + rest)[1..] == rest;
    case Dollar =>
      assert ("$" + rest)[1..] == rest;
    case Escaped =>
      assert ("$${" + rest)[3..] == rest;
    case Variable(name) =>
      VariableResolves(name, env);
      ExpandReference(name, rest, env);
    case WithDefault(name, default) =>
      DefaultResolves(name, default, env);
      ExpandReference(name + ":-" + default, rest, env);
  }

  /** A well-formed string means its segments' values side by side: nothing that was substituted, however
      many dollars it contains, is expanded again. */
  lemma {:induction false} ExpandMeansSegments(segments: seq<Segment>, env: Environment)
    requires WellFormed(segments)
    ensures Expand(Render(segments), env) == Meaning(segments, env)
  {
    if segments != [] {
      ExpandMeansSegments(segments[1..], env);
      ExpandSegment(segments[0], Render(segments[1..]), env);
    }
  }

  /** The first segment of a string that expands. */
  function FirstSegment(s: string): Segment
    requires s != []
  {
    if s[0] != '$' then Plain(s[0])
    else if "$${" <= s then Escaped
    else if !("${" <= s) then Dollar
    else ReferenceSegment(s[2..Find(s, '}', 2)])
  }

  lemma {:induction false} ReferenceText(s: string, close: nat)
    requires 2 <= close < |s| && s[0] == '$' && s[1] == '{' && s[close] == '}'
    ensures "${" + s[2..close] + "}" <= s
  {
  }

  function ReferenceSegment(reference: string): Segment {
    var separator := FindSeparator(reference, 0);
    if separator == |reference| then Variable(reference)
    else WithDefault(reference[..separator], reference[separator + 2..])
  }

  lemma {:induction false} ReferenceFits(reference: string, env: Environment)
    requires Resolve(reference, env).Expanded? && forall i :: 0 <= i < |reference| ==> reference[i] != '}'
    ensures ReferenceSegment(reference).Valid() && ReferenceSegment(reference).Text() == "${" + reference + "}"
  {
  }

  lemma {:induction false} FirstReferenceFits(s: string, env: Environment)
    requires "${" <= s && Expand(s, env).Expanded?
    ensures FirstSegment(s).Valid() && FirstSegment(s).Text() <= s && !FirstSegment(s).Dollar?
  {
    assert s[0] == '$' && s[1] == '{';
    var close := Find(s, '}', 2);
    var reference := s[2..close];
    assert forall i :: 0 <= i < |reference| ==> reference[i] == s[i + 2];
    ReferenceFits(reference, env);
    ReferenceText(s, close);
  }

  lemma {:induction false} FirstSegmentFits(s: string, env: Environment)
    requires s != [] && Expand(s, env).Expanded?
    ensures FirstSegment(s).Valid() && FirstSegment(s).Text() <= s
    ensures FirstSegment(s).Dollar? ==> !("{" <= s[1..]) && !("${" <= s[1..])
  {
    if "${" <= s {
      FirstReferenceFits(s, env);
    }
  }

  /** Every string that expands is made of segments, so the segments describe expansion completely. */
  lemma {:induction false} ExpandedHasSegments(s: string, env: Environment) returns (segments: seq<Segment>)
    requires Expand(s, env).Expanded?
    ensures WellFormed(segments) && Render(segments) == s
    decreases |s|
  {
    if s == [] {
      segments := [];
    } else {
      var first := FirstSegment(s);
      FirstSegmentFits(s, env);
      var rest := s[|first.Text()|..];
      assert first.Text() + rest == s;
      ExpandSegment(first, rest, env);
      var more := ExpandedHasSegments(rest, env);
      segments := [first] + more;
      assert segments[1..] == more;
    }
  }
}
