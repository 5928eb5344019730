/**
 Trimming, lower-casing, splitting at commas and the name grammars of RFC 1123 as the
 configuration parser uses them. Lower-casing is exact on everything the grammars can
 accept: apart from "A" to "Z" only U+0130 and U+212A have an ASCII lower-case form.
 */
module Texts {

  /** `unicode.IsSpace`. */
  predicate IsSpace(c: char) {
    || '\t' <= c <= '\r'
    || c in {' ', '\U{85}', '\U{A0}', '\U{1680}', '\U{2028}', '\U{2029}', '\U{202F}', '\U{205F}', '\U{3000}'}
    || '\U{2000}' <= c <= '\U{200A}'
  }

  function TrimLeft(s: string): string {
    if s != [] && IsSpace(s[0]) then TrimLeft(s[1..]) else s
  }

  function TrimRight(s: string): string {
    if s != [] && IsSpace(s[|s| - 1]) then TrimRight(s[..|s| - 1]) else s
  }

  /** `strings.TrimSpace`. */
  function TrimSpace(s: string): string {
    TrimRight(TrimLeft(s))
  }

  /** No space at either end. */
  predicate Bare(s: string) {
    s == [] || (!IsSpace(s[0]) && !IsSpace(s[|s| - 1]))
  }

  lemma {:induction false} TrimRightIsBare(s: string)
    requires s == [] || !IsSpace(s[0])
    ensures Bare(TrimRight(s))
  {
    if s != [] && IsSpace(s[|s| - 1]) {
      TrimRightIsBare(s[..|s| - 1]);
    }
  }

  lemma {:induction false} TrimLeftLeads(s: string)
    ensures TrimLeft(s) == [] || !IsSpace(TrimLeft(s)[0])
  {
    if s != [] && IsSpace(s[0]) {
      TrimLeftLeads(s[1..]);
    }
  }

  /** Trimming leaves no space at either end, and nothing else to trim. */
  lemma TrimIsBare(s: string)
    ensures Bare(TrimSpace(s))
    ensures TrimSpace(s) == s <==> Bare(s)
  {
    TrimLeftLeads(s);
    TrimRightIsBare(TrimLeft(s));
  }

  function LowerChar(c: char): char {
    if 'A' <= c <= 'Z' then (c as int + 32) as char
    else if c == '\U{130}' then 'i'
    else if c == '\U{212A}' then 'k'
    else c
  }

  /** `strings.ToLower`. */
  function Lower(s: string): string {
    seq(|s|, i requires 0 <= i < |s| => LowerChar(s[i]))
  }

  /** `strings.TrimSuffix(s, ".")`. */
  function TrimDot(s: string): string {
    if s != [] && s[|s| - 1] == '.' then s[..|s| - 1] else s
  }

  predicate IsAlphanumeric(c: char) {
    'a' <= c <= 'z' || '0' <= c <= '9'
  }

  /** `IsDNS1123Label`. */
  predicate IsLabel(s: string) {
    && 0 < |s| <= 63
    && IsAlphanumeric(s[0]) && IsAlphanumeric(s[|s| - 1])
    && forall i :: 0 <= i < |s| ==> IsAlphanumeric(s[i]) || s[i] == '-'
  }

  /** `IsDNS1123Subdomain`: labels joined by dots. */
  predicate IsSubdomain(s: string) {
    && 0 < |s| <= 253
    && IsAlphanumeric(s[0]) && IsAlphanumeric(s[|s| - 1])
    && (forall i :: 0 <= i < |s| ==> IsAlphanumeric(s[i]) || s[i] == '-' || s[i] == '.')
    && forall i :: 0 < i < |s| - 1 && s[i] == '.' ==> IsAlphanumeric(s[i - 1]) && IsAlphanumeric(s[i + 1])
  }

  predicate ContainsAny(s: string, chars: set<char>) {
    exists i :: 0 <= i < |s| && s[i] in chars
  }

  /** `strings.Split(s, ",")`. */
  function Split(s: string): (parts: seq<string>)
    ensures parts != []
  {
    if s == [] then [[]]
    else if s[0] == ',' then [[]] + Split(s[1..])
    else [[s[0]] + Split(s[1..])[0]] + Split(s[1..])[1..]
  }

  /** The parts written one after the other with commas between. */
  function Join(parts: seq<string>): string
    requires parts != []
  {
    if |parts| == 1 then parts[0] else parts[0] + [','] + Join(parts[1..])
  }

  lemma {:induction false} SplitAtComma(part: string, rest: string)
    requires ',' !in part
    ensures Split(part) == [part] && Split(part + [','] + rest) == [part] + Split(rest)
  {
    if part == [] {
      assert part + [','] + rest == [','] + rest;
    } else {
      SplitAtComma(part[1..], rest);
      assert part == [part[0]] + part[1..];
      assert part + [','] + rest == [part[0]] + (part[1..] + [','] + rest);
    }
  }

  /** Splitting undoes joining. */
  lemma {:induction false} SplitOfJoin(parts: seq<string>)
    requires parts != [] && forall i :: 0 <= i < |parts| ==> ',' !in parts[i]
    ensures Split(Join(parts)) == parts
  {
    if |parts| == 1 {
      SplitAtComma(parts[0], []);
    } else {
      SplitOfJoin(parts[1..]);
      SplitAtComma(parts[0], Join(parts[1..]));
    }
  }
}
