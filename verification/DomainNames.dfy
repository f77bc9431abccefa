/**
 Domain patterns: normalisation to canonical ASCII form and the label paths the trie is keyed by.
 A string is a sequence of Unicode characters; the IDNA conversion is an arbitrary function.
 */
module DomainNames {
  import opened Options
  import opened Ordering

  type MinuteOfDay = n: nat | n < 1440

  /** What the surrounding libraries decide: IDNA conversion, case and spacing outside ASCII, and clock times. */
  datatype Library = Library(toASCII: string -> Option<string>, lowerOther: char -> char, spaceOther: char -> bool,
                             parseClock: string -> Option<MinuteOfDay>)

  // ----- strings

  function Lower(lib: Library, c: char): char {
    if 'A' <= c <= 'Z' then (c as int + 32) as char
    else if c as int < 128 then c
    else lib.lowerOther(c)
  }

  function ToLower(lib: Library, s: string): (r: string)
    ensures |r| == |s|
    ensures forall i | 0 <= i < |s| :: r[i] == Lower(lib, s[i])
  {
    seq(|s|, i requires 0 <= i < |s| => Lower(lib, s[i]))
  }

  predicate IsSpace(lib: Library, c: char) {
    c == ' ' || 9 <= c as int <= 13 || (c as int >= 128 && lib.spaceOther(c))
  }

  predicate ContainsSpace(lib: Library, s: string) {
    exists i | 0 <= i < |s| :: IsSpace(lib, s[i])
  }

  function TrimSpace(lib: Library, s: string): string {
    if s == [] then s
    else if IsSpace(lib, s[0]) then TrimSpace(lib, s[1..])
    else if IsSpace(lib, s[|s| - 1]) then TrimSpace(lib, s[..|s| - 1])
    else s
  }

  predicate EndsWithDot(s: string) { s != [] && s[|s| - 1] == '.' }

  function TrimDot(s: string): string { if EndsWithDot(s) then s[..|s| - 1] else s }

  predicate HasWildcard(s: string) { |s| >= 2 && s[0] == '*' && s[1] == '.' }

  function TrimWildcard(s: string): string { if HasWildcard(s) then s[2..] else s }

  /** Position of the first dot, or the length. */
  function FirstDot(s: string): (n: nat)
    ensures n <= |s|
    ensures forall i | 0 <= i < n :: s[i] != '.'
    ensures n < |s| ==> s[n] == '.'
  {
    if s == [] || s[0] == '.' then 0 else 1 + FirstDot(s[1..])
  }

  function Split(s: string): (parts: seq<string>)
    ensures parts != []
    decreases |s|
  {
    var n := FirstDot(s);
    if n == |s| then [s] else [s[..n]] + Split(s[n + 1..])
  }

  function Join(parts: seq<string>): string {
    if parts == [] then ""
    else if |parts| == 1 then parts[0]
    else parts[0] + "." + Join(parts[1..])
  }

  predicate DotFree(s: string) { '.' !in s }

  lemma JoinCons(part: string, rest: seq<string>)
    requires rest != []
    ensures Join([part] + rest) == part + "." + Join(rest)
  {
    assert ([part] + rest)[1..] == rest;
  }

  lemma {:induction false} JoinSplit(s: string)
    ensures Join(Split(s)) == s
    ensures forall p | p in Split(s) :: DotFree(p)
    decreases |s|
  {
    var n := FirstDot(s);
    if n < |s| {
      var rest := Split(s[n + 1..]);
      JoinSplit(s[n + 1..]);
      assert Split(s) == [s[..n]] + rest;
      JoinCons(s[..n], rest);
      assert s == s[..n] + "." + s[n + 1..];
    }
  }

  lemma FirstDotOf(head: string, tail: string)
    requires DotFree(head)
    ensures FirstDot(head + "." + tail) == |head|
  {
    var s := head + "." + tail;
    assert s[|head|] == '.';
    assert forall i | 0 <= i < |head| :: s[i] == head[i] && head[i] in head;
  }

  lemma {:induction false} SplitJoin(parts: seq<string>)
    requires parts != [] && forall p | p in parts :: DotFree(p)
    ensures Split(Join(parts)) == parts
  {
    var s := Join(parts);
    if |parts| == 1 {
      assert s == parts[0] && parts[0] in parts;
      assert forall i | 0 <= i < |s| :: s[i] in s;
    } else {
      var rest := Join(parts[1..]);
      FirstDotOf(parts[0], rest);
      SplitJoin(parts[1..]);
      assert s[..|parts[0]|] == parts[0] && s[|parts[0]| + 1..] == rest;
    }
  }

  predicate EndsWith(s: string, tail: string) { |tail| <= |s| && s[|s| - |tail|..] == tail }

  lemma {:induction false} JoinAppend(a: seq<string>, b: seq<string>)
    requires a != [] && b != []
    ensures Join(a + b) == Join(a) + "." + Join(b)
  {
    if |a| == 1 {
      assert (a + b)[1..] == b;
    } else {
      assert (a + b)[1..] == a[1..] + b;
      JoinAppend(a[1..], b);
      Regrouped(a[0], Join(a[1..]), Join(b));
    }
  }

  lemma Regrouped(part: string, rest: string, tail: string)
    ensures part + "." + (rest + "." + tail) == part + "." + rest + "." + tail
  {
  }

  /** A name splits at any of its dots. */
  lemma SplitAtDot(head: string, tail: string)
    ensures Split(head + "." + tail) == Split(head) + Split(tail)
  {
    JoinSplit(head);
    JoinSplit(tail);
    JoinAppend(Split(head), Split(tail));
    SplitJoin(Split(head) + Split(tail));
  }

  /** The last parts of a name, joined, are the name or what follows one of its dots. */
  lemma JoinOfLast(parts: seq<string>, m: nat)
    requires m < |parts|
    ensures var name, tail := Join(parts), Join(parts[m..]); name == tail || EndsWith(name, "." + tail)
  {
    if m == 0 {
      assert parts[0..] == parts;
    } else {
      JoinAppend(parts[..m], parts[m..]);
      assert parts[..m] + parts[m..] == parts;
      EndsAfterDot(Join(parts[..m]), Join(parts[m..]));
    }
  }

  lemma EndsAfterDot(head: string, tail: string)
    ensures EndsWith(head + "." + tail, "." + tail)
  {
  }

  // ----- labels and normalisation

  predicate LabelChar(c: char) { 'a' <= c <= 'z' || '0' <= c <= '9' || c == '-' }

  /** Section 2.3.4 of RFC 1035 limits a label to 63 octets; hyphens may not begin or end one. */
  predicate ValidLabel(part: string) {
    && part != "" && |part| <= 63
    && part[0] != '-' && part[|part| - 1] != '-'
    && forall c | c in part :: LabelChar(c)
  }

  predicate ValidLabels(parts: seq<string>) { forall p | p in parts :: ValidLabel(p) }

  function NormalizeDomainPattern(lib: Library, domain: string): Option<string> {
    var trimmed := TrimDot(TrimSpace(lib, domain));
    if HasWildcard(trimmed) then
      match NormalizeName(lib, trimmed[2..])
      case None => None
      case Some(ascii) => Some("*." + ascii)
    else NormalizeName(lib, trimmed)
  }

  /** What is left once space, a dot at the end and a wildcard are off. */
  function NormalizeName(lib: Library, bare: string): Option<string> {
    if TrimSpace(lib, bare) != bare || EndsWithDot(bare) || bare == "" || ContainsSpace(lib, bare) then None
    else match lib.toASCII(bare)
      case None => None
      case Some(converted) =>
        var ascii := ToLower(lib, TrimDot(converted));
        if ascii == "" || |ascii| > 253 || ContainsSpace(lib, ascii) then None
        else match lib.toASCII(ascii)
          case None => None
          case Some(stable) =>
            if ToLower(lib, TrimDot(stable)) != ascii || !ValidLabels(Split(ascii)) then None else Some(ascii)
  }

  /** A name in canonical form: valid labels, at most 253 characters, and a fixed point of the conversion. */
  ghost predicate Canonical(lib: Library, name: string) {
    && name != "" && |name| <= 253
    && ValidLabels(Split(name))
    && lib.toASCII(name).Some? && ToLower(lib, TrimDot(lib.toASCII(name).value)) == name
  }

  lemma NormalizedIsCanonical(lib: Library, domain: string)
    requires NormalizeDomainPattern(lib, domain).Some?
    ensures
      var n := NormalizeDomainPattern(lib, domain).value;
      Canonical(lib, TrimWildcard(n)) && n == (if HasWildcard(n) then "*." else "") + TrimWildcard(n)
  {
    var trimmed := TrimDot(TrimSpace(lib, domain));
    var bare := if HasWildcard(trimmed) then trimmed[2..] else trimmed;
    var ascii := ToLower(lib, TrimDot(lib.toASCII(bare).value));
    var n := NormalizeDomainPattern(lib, domain).value;
    NoWildcardInLabels(ascii);
    if HasWildcard(trimmed) { assert n == "*." + ascii && n[2..] == ascii; }
  }

  lemma {:induction false} CharsOfLabels(name: string)
    requires ValidLabels(Split(name))
    ensures forall c | c in name :: LabelChar(c) || c == '.'
    ensures name != "" && name[0] != '.' && name[|name| - 1] != '.'
    decreases |name|
  {
    var n := FirstDot(name);
    assert Split(name)[0] == name[..n];
    assert ValidLabel(name[..n]);
    if n < |name| {
      var rest := name[n + 1..];
      assert Split(name)[1..] == Split(rest);
      CharsOfLabels(rest);
      assert name == name[..n] + "." + rest;
    } else {
      assert name[..n] == name;
    }
  }

  lemma NoWildcardInLabels(name: string)
    requires ValidLabels(Split(name))
    ensures !HasWildcard(name)
  {
    CharsOfLabels(name);
    if |name| >= 1 { assert name[0] in name; }
  }

  lemma PlainIsUntouched(lib: Library, name: string)
    requires ValidLabels(Split(name))
    ensures TrimSpace(lib, name) == name && TrimDot(name) == name && !ContainsSpace(lib, name)
    ensures TrimSpace(lib, "*." + name) == "*." + name && TrimDot("*." + name) == "*." + name
  {
    CharsOfLabels(name);
    assert forall i | 0 <= i < |name| :: name[i] in name;
    var w := "*." + name;
    assert w[0] == '*' && w[|w| - 1] == name[|name| - 1];
  }

  /** Normalising a normalised pattern changes nothing, whatever the IDNA conversion does. */
  lemma NormalizeIdempotent(lib: Library, domain: string)
    requires NormalizeDomainPattern(lib, domain).Some?
    ensures NormalizeDomainPattern(lib, NormalizeDomainPattern(lib, domain).value)
      == NormalizeDomainPattern(lib, domain)
  {
    NormalizedIsCanonical(lib, domain);
    CanonicalIsFixed(lib, TrimWildcard(NormalizeDomainPattern(lib, domain).value));
  }

  /** A canonical name, bare or under a wildcard, is its own normal form. */
  lemma CanonicalIsFixed(lib: Library, name: string)
    requires Canonical(lib, name)
    ensures NormalizeDomainPattern(lib, name) == Some(name)
    ensures NormalizeDomainPattern(lib, "*." + name) == Some("*." + name)
  {
    PlainIsUntouched(lib, name);
    NoWildcardInLabels(name);
    assert ("*." + name)[2..] == name;
  }

  // ----- what normalising does to a pattern

  lemma {:induction false} TrimAround(lib: Library, s: string, c: char)
    requires IsSpace(lib, c)
    ensures TrimSpace(lib, [c] + s) == TrimSpace(lib, s) == TrimSpace(lib, s + [c])
  {
    assert ([c] + s)[1..] == s;
    if s == [] {
      assert ([] + [c])[1..] == [];
    } else if IsSpace(lib, s[0]) {
      assert (s + [c])[1..] == s[1..] + [c];
      TrimAround(lib, s[1..], c);
    } else {
      assert (s + [c])[..|s|] == s;
    }
  }

  lemma {:induction false} TrimShortens(lib: Library, s: string)
    ensures |TrimSpace(lib, s)| <= |s|
    decreases |s|
  {
    if s != [] {
      TrimShortens(lib, s[1..]);
      TrimShortens(lib, s[..|s| - 1]);
    }
  }

  lemma TrimmedEnds(lib: Library, s: string)
    ensures TrimSpace(lib, s) == s <==> s == "" || (!IsSpace(lib, s[0]) && !IsSpace(lib, s[|s| - 1]))
  {
    if s != [] {
      TrimShortens(lib, s[1..]);
      TrimShortens(lib, s[..|s| - 1]);
    }
  }

  /** Space around a pattern does not matter. */
  lemma SpacesAround(lib: Library, domain: string, c: char)
    requires IsSpace(lib, c)
    ensures NormalizeDomainPattern(lib, [c] + domain) == NormalizeDomainPattern(lib, domain)
    ensures NormalizeDomainPattern(lib, domain + [c]) == NormalizeDomainPattern(lib, domain)
  {
    TrimAround(lib, domain, c);
  }

  /** One dot at the end of a pattern does not matter, and a second one makes it invalid. */
  lemma OneDotAtTheEnd(lib: Library, domain: string)
    requires TrimSpace(lib, domain) == domain
    ensures NormalizeDomainPattern(lib, domain + ".")
         == if EndsWithDot(domain) then None else NormalizeDomainPattern(lib, domain)
  {
    var dotted := domain + ".";
    TrimmedEnds(lib, domain);
    TrimmedEnds(lib, dotted);
    assert TrimDot(dotted) == domain;
  }

  predicate Ascii(s: string) { forall c | c in s :: c as int < 128 }

  lemma AsciiLabels(lib: Library, name: string)
    requires Ascii(name) && ValidLabels(Split(ToLower(lib, name)))
    ensures !ContainsSpace(lib, name) && TrimSpace(lib, name) == name && !EndsWithDot(name) && name != ""
    ensures !HasWildcard(name)
  {
    var lower := ToLower(lib, name);
    CharsOfLabels(lower);
    forall i | 0 <= i < |name| ensures !IsSpace(lib, name[i]) && name[i] != '*' {
      assert lower[i] in lower && name[i] in name;
    }
    assert lower[|name| - 1] != '.' && Lower(lib, '.') == '.';
  }

  /** The conversion leaves the name alone in either case of letters. */
  predicate Unconverted(lib: Library, name: string) {
    lib.toASCII(name) == Some(name) && lib.toASCII(ToLower(lib, name)) == Some(ToLower(lib, name))
  }

  /** The lower-case form of a name, if it has valid labels and fits. */
  function LowerForm(lib: Library, name: string): Option<string> {
    if |name| <= 253 && ValidLabels(Split(ToLower(lib, name))) then Some(ToLower(lib, name)) else None
  }

  lemma LabelsAreLower(lib: Library, name: string)
    requires ValidLabels(Split(name))
    ensures ToLower(lib, name) == name
  {
    CharsOfLabels(name);
    forall i | 0 <= i < |name| ensures Lower(lib, name[i]) == name[i] { assert name[i] in name; }
  }

  lemma NameNormalizes(lib: Library, name: string)
    requires Ascii(name) && Unconverted(lib, name) && TrimSpace(lib, name) == name && !EndsWithDot(name)
    ensures NormalizeName(lib, name) == LowerForm(lib, name)
  {
    var lower := ToLower(lib, name);
    if ValidLabels(Split(lower)) {
      AsciiLabels(lib, name);
      PlainIsUntouched(lib, lower);
      LabelsAreLower(lib, lower);
    }
  }

  /**
   * A name in ASCII that the conversion leaves alone, in upper or lower case, has its lower-case form as its normal
   * form exactly when that has valid labels and fits, ...
   */
  lemma AsciiNormalizes(lib: Library, name: string)
    requires Ascii(name) && Unconverted(lib, name)
    requires TrimSpace(lib, name) == name && !EndsWithDot(name) && !HasWildcard(name)
    ensures NormalizeDomainPattern(lib, name) == LowerForm(lib, name)
  {
    NameNormalizes(lib, name);
  }

  /** ... and under a wildcard the same with the wildcard in front. */
  lemma AsciiWildcardNormalizes(lib: Library, name: string)
    requires Ascii(name) && Unconverted(lib, name)
    requires name != "" && TrimSpace(lib, name) == name && !EndsWithDot(name)
    ensures NormalizeDomainPattern(lib, "*." + name)
         == match LowerForm(lib, name) case Some(lower) => Some("*." + lower) case None => None
  {
    WildcardUntrimmed(lib, name);
    NameNormalizes(lib, name);
  }

  lemma WildcardUntrimmed(lib: Library, name: string)
    requires name != "" && TrimSpace(lib, name) == name && !EndsWithDot(name)
    ensures var starred := "*." + name;
      TrimDot(TrimSpace(lib, starred)) == starred && HasWildcard(starred) && starred[2..] == name
  {
    var starred := "*." + name;
    assert starred[0] == '*' && starred[|starred| - 1] == name[|name| - 1];
    TrimmedEnds(lib, name);
    TrimmedEnds(lib, starred);
  }

  // ----- label paths

  /** The labels of a pattern from the top-level domain down, ignoring a wildcard prefix. */
  function LabelsFor(lib: Library, domain: string): Option<seq<string>> {
    match NormalizeDomainPattern(lib, domain)
    case None => None
    case Some(n) => Some(Reversed(Split(TrimWildcard(n))))
  }

  function DomainFromLabels(labels: seq<string>): string { Join(Reversed(labels)) }

  lemma SpelledBack(name: string)
    ensures DomainFromLabels(Reversed(Split(name))) == name
  {
    assert Reversed(Reversed(Split(name))) == Split(name);
    JoinSplit(name);
  }

  lemma CanonicalLabels(lib: Library, name: string)
    requires Canonical(lib, name)
    ensures LabelsFor(lib, name) == Some(Reversed(Split(name)))
    ensures Reversed(Split(name)) != [] && ValidLabels(Reversed(Split(name)))
  {
    CanonicalIsFixed(lib, name);
    NoWildcardInLabels(name);
  }

  /** Turning a pattern into labels and back gives its normal form without the wildcard prefix. */
  lemma LabelsRoundTrip(lib: Library, domain: string)
    requires LabelsFor(lib, domain).Some?
    ensures DomainFromLabels(LabelsFor(lib, domain).value) == TrimWildcard(NormalizeDomainPattern(lib, domain).value)
    ensures LabelsFor(lib, DomainFromLabels(LabelsFor(lib, domain).value)) == LabelsFor(lib, domain)
    ensures LabelsFor(lib, domain).value != [] && ValidLabels(LabelsFor(lib, domain).value)
  {
    var name := TrimWildcard(NormalizeDomainPattern(lib, domain).value);
    NormalizedIsCanonical(lib, domain);
    SpelledBack(name);
    CanonicalLabels(lib, name);
  }

  /** Different label paths spell different names. */
  lemma DomainFromLabelsInjective(a: seq<string>, b: seq<string>)
    requires a != [] && b != [] && ValidLabels(a) && ValidLabels(b)
    requires DomainFromLabels(a) == DomainFromLabels(b)
    ensures a == b
  {
    SplitOfLabels(a);
    SplitOfLabels(b);
    assert Reversed(Reversed(a)) == a && Reversed(Reversed(b)) == b;
  }

  lemma SplitOfLabels(labels: seq<string>)
    requires labels != [] && ValidLabels(labels)
    ensures Split(DomainFromLabels(labels)) == Reversed(labels)
  {
    var parts := Reversed(labels);
    forall p | p in parts ensures DotFree(p) {
      var i :| 0 <= i < |parts| && parts[i] == p;
      assert labels[|labels| - 1 - i] == p;
      assert ValidLabel(p);
    }
    SplitJoin(parts);
  }

  /** The in-place reversal of the split parts. */
  method ReverseInPlace(parts: array<string>)
    modifies parts
    ensures parts[..] == Reversed(old(parts[..]))
  {
    var i, j := 0, parts.Length - 1;
    while i < j
      invariant 0 <= i <= parts.Length && j == parts.Length - 1 - i
      invariant forall k | 0 <= k < i || j < k < parts.Length :: parts[k] == old(parts[parts.Length - 1 - k])
      invariant forall k | i <= k <= j :: parts[k] == old(parts[k])
    {
      parts[i], parts[j] := parts[j], parts[i];
      i, j := i + 1, j - 1;
    }
  }

  method ReverseParts(split: seq<string>) returns (reversed: seq<string>)
    ensures reversed == Reversed(split)
  {
    var parts := new string[|split|](i requires 0 <= i < |split| => split[i]);
    assert parts[..] == split;
    ReverseInPlace(parts);
    reversed := parts[..];
  }

  method ComputeLabels(lib: Library, domain: string) returns (labels: Option<seq<string>>)
    ensures labels == LabelsFor(lib, domain)
  {
    var normalized := NormalizeDomainPattern(lib, domain);
    if normalized.None? { return None; }
    var parts := ReverseParts(Split(TrimWildcard(normalized.value)));
    return Some(parts);
  }
}
