/** Rewriting the string tokens of a JSON text and nothing else, with one copied-so-far index. */
module Redaction {
  import opened Wrappers

  const QUOTE := '"'
  const ESCAPE := '\\'

  /** How one string token is read, rewritten and written. `decode` is None for a token that does not
      decode; only tokens with an escape are decoded at all. */
  datatype Rewriter = Rewriter(decode: string -> Option<string>, replace: string -> string, encode: string -> string)

  function TextOf(token: string, r: Rewriter): Option<string>
    requires |token| >= 2
  {
    if ESCAPE in token then r.decode(token) else Some(token[1..|token| - 1])
  }

  /** A token keeps its exact spelling unless its text changes. */
  function Shown(token: string, r: Rewriter): string
    requires |token| >= 2
  {
    var text := TextOf(token, r);
    if text.None? || r.replace(text.value) == text.value then token else r.encode(r.replace(text.value))
  }

  // ---------- from scratch

  /** Where the string that begins `s` closes, or the length of `s`. */
  function EndOf(s: string): (end: nat)
    ensures end <= |s| && (end < |s| ==> s[end] == QUOTE)
  {
    if s == [] || s[0] == QUOTE then 0
    else if s[0] == ESCAPE then
      if |s| == 1 then 1 else 2 + EndOf(s[2..])
    else 1 + EndOf(s[1..])
  }

  function Redacted(s: string, r: Rewriter): string {
    if s == [] then []
    else if s[0] != QUOTE then [s[0]] + Redacted(s[1..], r)
    else
      var end := 1 + EndOf(s[1..]);
      if end == |s| then s else Shown(s[..end + 1], r) + Redacted(s[end + 1..], r)
  }

  // ---------- what stays

  /** A token as JSON writes it: quotes around, and none that closes it early. */
  predicate Quoted(token: string) {
    |token| >= 2 && token[0] == QUOTE && EndOf(token[1..]) == |token| - 2
  }

  /** The text outside its strings, with an empty string for each. */
  function Skeleton(s: string): string {
    if s == [] then []
    else if s[0] != QUOTE then [s[0]] + Skeleton(s[1..])
    else
      var end := 1 + EndOf(s[1..]);
      if end == |s| then s else "\"\"" + Skeleton(s[end + 1..])
  }

  function Strings(s: string): seq<string> {
    if s == [] then []
    else if s[0] != QUOTE then Strings(s[1..])
    else
      var end := 1 + EndOf(s[1..]);
      if end == |s| then [] else [s[..end + 1]] + Strings(s[end + 1..])
  }

  lemma {:induction false} EndExtends(s: string, rest: string)
    requires EndOf(s) < |s|
    ensures EndOf(s + rest) == EndOf(s)
  {
    if s[0] == ESCAPE {
      EndExtends(s[2..], rest);
      assert (s + rest)[2..] == s[2..] + rest;
    } else if s[0] != QUOTE {
      EndExtends(s[1..], rest);
      assert (s + rest)[1..] == s[1..] + rest;
    }
  }

  lemma TokenFirst(token: string, rest: string)
    requires Quoted(token)
    ensures Skeleton(token + rest) == "\"\"" + Skeleton(rest)
    ensures Strings(token + rest) == [token] + Strings(rest)
  {
    EndExtends(token[1..], rest);
    var s := token + rest;
    assert s[1..] == token[1..] + rest;
    assert s[..|token|] == token && s[|token|..] == rest;
  }

  lemma SliceOfSlice(s: string, n: nat, k: nat)
    requires k <= n <= |s|
    ensures s[..n][k..] == s[k..][..n - k]
  {
  }

  lemma {:induction false} EndIsEnd(s: string)
    requires EndOf(s) < |s|
    ensures EndOf(s[..EndOf(s) + 1]) == EndOf(s)
  {
    var end := EndOf(s);
    if s[0] == ESCAPE {
      EndIsEnd(s[2..]);
      SliceOfSlice(s, end + 1, 2);
    } else if s[0] != QUOTE {
      EndIsEnd(s[1..]);
      SliceOfSlice(s, end + 1, 1);
    }
  }

  /** The first token of a text that begins with a string. */
  lemma TokenIsQuoted(s: string)
    requires s != [] && s[0] == QUOTE && 1 + EndOf(s[1..]) < |s|
    ensures Quoted(s[..2 + EndOf(s[1..])])
  {
    var end := 1 + EndOf(s[1..]);
    EndIsEnd(s[1..]);
    SliceOfSlice(s, end + 1, 1);
  }

  ghost predicate Encodes(r: Rewriter) {
    forall text {:trigger r.encode(text)} :: Quoted(r.encode(text))
  }

  /** Every string is the rewritten one. */
  predicate Rewritten(shown: seq<string>, tokens: seq<string>, r: Rewriter) {
    && |shown| == |tokens|
    && forall i :: 0 <= i < |tokens| ==> |tokens[i]| >= 2 && shown[i] == Shown(tokens[i], r)
  }

  lemma RewrittenFirst(token: string, shown: seq<string>, tokens: seq<string>, r: Rewriter)
    requires |token| >= 2 && Rewritten(shown, tokens, r)
    ensures Rewritten([Shown(token, r)] + shown, [token] + tokens, r)
  {
  }

  lemma ShownIsQuoted(token: string, r: Rewriter)
    requires Quoted(token) && Encodes(r)
    ensures Quoted(Shown(token, r))
  {
  }

  lemma RedactedFirst(s: string, r: Rewriter, token: string, rest: string)
    requires s != [] && s[0] == QUOTE && 1 + EndOf(s[1..]) < |s|
    requires token == s[..2 + EndOf(s[1..])] && rest == s[2 + EndOf(s[1..])..]
    ensures |token| >= 2 && Redacted(s, r) == Shown(token, r) + Redacted(rest, r)
  {
  }

  /** The text that begins with a string and is rewritten, by its first token and the rest. */
  lemma TokenStructure(s: string, r: Rewriter, token: string, rest: string)
    requires Encodes(r) && s != [] && s[0] == QUOTE && 1 + EndOf(s[1..]) < |s|
    requires token == s[..2 + EndOf(s[1..])] && rest == s[2 + EndOf(s[1..])..]
    ensures Quoted(token)
    ensures Skeleton(Redacted(s, r)) == "\"\"" + Skeleton(Redacted(rest, r)) && Skeleton(s) == "\"\"" + Skeleton(rest)
    ensures Strings(Redacted(s, r)) == [Shown(token, r)] + Strings(Redacted(rest, r))
            && Strings(s) == [token] + Strings(rest)
  {
    TokenIsQuoted(s);
    assert token + rest == s;
    TokenFirst(token, rest);
    ShownIsQuoted(token, r);
    RedactedFirst(s, r, token, rest);
    TokenFirst(Shown(token, r), Redacted(rest, r));
  }

  lemma PlainStructure(s: string, r: Rewriter)
    requires s != [] && s[0] != QUOTE
    ensures Skeleton(Redacted(s, r)) == [s[0]] + Skeleton(Redacted(s[1..], r))
            && Skeleton(s) == [s[0]] + Skeleton(s[1..])
    ensures Strings(Redacted(s, r)) == Strings(Redacted(s[1..], r)) && Strings(s) == Strings(s[1..])
  {
    assert ([s[0]] + Redacted(s[1..], r))[1..] == Redacted(s[1..], r);
  }

  /** Nothing outside strings changes, and each string is the rewritten one in the same place. */
  lemma {:induction false} RedactionKeepsStructure(s: string, r: Rewriter)
    requires Encodes(r)
    ensures Skeleton(Redacted(s, r)) == Skeleton(s)
    ensures Rewritten(Strings(Redacted(s, r)), Strings(s), r)
  {
    if s != [] && s[0] != QUOTE {
      RedactionKeepsStructure(s[1..], r);
      PlainStructure(s, r);
    } else if s != [] && 1 + EndOf(s[1..]) < |s| {
      var token, rest := s[..2 + EndOf(s[1..])], s[2 + EndOf(s[1..])..];
      RedactionKeepsStructure(rest, r);
      TokenStructure(s, r, token, rest);
      RewrittenFirst(token, Strings(Redacted(rest, r)), Strings(rest), r);
    }
  }

  // ---------- the scanner

  /** What has been copied, and what is read but not copied yet, is the start of the result. */
  ghost predicate Copying(data: string, r: Rewriter, result: string, copied: nat, index: nat) {
    copied <= index <= |data| && result + data[copied..index] + Redacted(data[index..], r) == Redacted(data, r)
  }

  lemma Regroup(a: string, b: string, c: string)
    ensures a + b + c == a + (b + c)
  {
  }

  lemma PlainCharacter(data: string, r: Rewriter, result: string, copied: nat, index: nat)
    requires Copying(data, r, result, copied, index) && index < |data| && data[index] != QUOTE
    ensures Copying(data, r, result, copied, index + 1)
  {
    assert data[index..][1..] == data[index + 1..];
    assert data[copied..index + 1] == data[copied..index] + [data[index]];
    Regroup(result, data[copied..index], [data[index]]);
    Regroup(result + data[copied..index], [data[index]], Redacted(data[index + 1..], r));
  }

  /** The text from `index` begins with the token up to `end`. */
  lemma TokenAt(data: string, r: Rewriter, index: nat, end: nat)
    requires index < end < |data| && data[index] == QUOTE && end == index + 1 + EndOf(data[index + 1..])
    ensures Redacted(data[index..], r) == Shown(data[index..end + 1], r) + Redacted(data[end + 1..], r)
  {
    var s := data[index..];
    assert s[1..] == data[index + 1..];
    assert s[..end - index + 1] == data[index..end + 1] && s[end - index + 1..] == data[end + 1..];
  }

  lemma KeptToken(data: string, r: Rewriter, result: string, copied: nat, index: nat, end: nat)
    requires Copying(data, r, result, copied, index) && index < end < |data| && data[index] == QUOTE
    requires end == index + 1 + EndOf(data[index + 1..]) && Shown(data[index..end + 1], r) == data[index..end + 1]
    ensures Copying(data, r, result, copied, end + 1)
  {
    TokenAt(data, r, index, end);
    var token, rest := data[index..end + 1], Redacted(data[end + 1..], r);
    assert data[copied..end + 1] == data[copied..index] + token;
    Regroup(result, data[copied..index], token);
    Regroup(result + data[copied..index], token, rest);
  }

  lemma RewrittenToken(data: string, r: Rewriter, result: string, copied: nat, index: nat, end: nat)
    requires Copying(data, r, result, copied, index) && index < end < |data| && data[index] == QUOTE
    requires end == index + 1 + EndOf(data[index + 1..])
    ensures Copying(data, r, result + data[copied..index] + Shown(data[index..end + 1], r), end + 1, end + 1)
  {
    TokenAt(data, r, index, end);
    var shown, rest := Shown(data[index..end + 1], r), Redacted(data[end + 1..], r);
    Regroup(result + data[copied..index], shown, rest);
    NothingCopied(data, end + 1, result + data[copied..index] + shown);
  }

  lemma NothingCopied(data: string, index: nat, result: string)
    requires index <= |data|
    ensures result + data[index..index] == result
  {
  }

  /** Nothing is left to rewrite: the end, or a string that never closes. */
  predicate Over(data: string, index: nat) {
    index == |data| || (index < |data| && data[index] == QUOTE && EndOf(data[index + 1..]) == |data| - index - 1)
  }

  lemma TheRest(data: string, r: Rewriter, result: string, copied: nat, index: nat)
    requires Copying(data, r, result, copied, index) && Over(data, index)
    ensures result + data[copied..] == Redacted(data, r)
  {
    if index < |data| {
      assert data[index..][1..] == data[index + 1..];
    }
    assert data[copied..] == data[copied..index] + data[index..];
    Regroup(result, data[copied..index], data[index..]);
  }

  /** From an opening quote to the closing one, or past the end of the text. */
  method SkipString(data: string, start: nat) returns (end: nat)
    requires start < |data|
    ensures end < |data| <==> EndOf(data[start + 1..]) < |data| - start - 1
    ensures end < |data| ==> end == start + 1 + EndOf(data[start + 1..])
  {
    end := start + 1;
    ghost var closing := start + 1 + EndOf(data[start + 1..]);
    while end < |data| && data[end] != QUOTE
      invariant if end <= |data| then end + EndOf(data[end..]) == closing else closing == |data|
      decreases |data| - end
    {
      assert data[end..][1..] == data[end + 1..];
      assert end + 2 <= |data| ==> data[end..][2..] == data[end + 2..];
      if data[end] == ESCAPE {
        end := end + 1;
      }
      end := end + 1;
    }
  }

  /** Rewrites the token at `start` if its text changes: then everything before it is copied, too. */
  method RewriteToken(data: string, r: Rewriter, result: string, copied: nat, start: nat, end: nat)
    returns (next: string, upto: nat)
    requires Copying(data, r, result, copied, start) && start < end < |data| && data[start] == QUOTE
    requires end == start + 1 + EndOf(data[start + 1..])
    ensures Copying(data, r, next, upto, end + 1)
  {
    var token := data[start..end + 1];
    var text := TextOf(token, r);
    if text.None? || r.replace(text.value) == text.value {
      KeptToken(data, r, result, copied, start, end);
      return result, copied;
    }
    RewrittenToken(data, r, result, copied, start, end);
    next := result + data[copied..start] + r.encode(r.replace(text.value));
    upto := end + 1;
  }

  lemma NothingRead(data: string, r: Rewriter)
    ensures Copying(data, r, [], 0, 0)
  {
    assert data[0..] == data && [] + data[0..0] == [];
  }

  method ReadOn(data: string, r: Rewriter, result: string, copied: nat, index: nat)
    returns (next: string, upto: nat, after: nat)
    requires Copying(data, r, result, copied, index) && index < |data|
    ensures Copying(data, r, next, upto, after)
    ensures after > index || (after == index && Over(data, index))
  {
    if data[index] != QUOTE {
      PlainCharacter(data, r, result, copied, index);
      return result, copied, index + 1;
    }
    var end := SkipString(data, index);
    if end >= |data| {
      return result, copied, index;
    }
    next, upto := RewriteToken(data, r, result, copied, index, end);
    after := end + 1;
  }

  /** Copies between changed tokens only. */
  method RedactJSONStrings(data: string, r: Rewriter) returns (output: string)
    ensures output == Redacted(data, r)
  {
    var result: string, copied: nat, index: nat := [], 0, 0;
    NothingRead(data, r);
    while index < |data|
      invariant Copying(data, r, result, copied, index)
      decreases |data| - index
    {
      var after;
      result, copied, after := ReadOn(data, r, result, copied, index);
      if after == index {
        break;
      }
      index := after;
    }
    TheRest(data, r, result, copied, index);
    output := result + data[copied..];
  }
}
