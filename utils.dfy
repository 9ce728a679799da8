/** utils.js: identity allocation, the email predicate and the response
    envelope. The URI and date predicates are foreign parsers and appear as
    parameters of the validators that use them. */
module Utils {
  import opened Wrappers
  import JsValue

  // ---------------------------------------------------------------------------
  // Identity allocation: `getNextId`
  // ---------------------------------------------------------------------------

  /** `Math.max(...s)` on a non-empty list. */
  function MaxOf(s: seq<int>): (m: int)
    requires s != []
    ensures m in s
    ensures forall x :: x in s ==> x <= m
  {
    if |s| == 1 then s[0]
    else
      var rest := MaxOf(s[1..]);
      assert s == [s[0]] + s[1..];
      if s[0] >= rest then s[0] else rest
  }

  /** `getNextId`: one more than the largest identity in use, or 1 for an
      empty store. */
  function GetNextId(ids: seq<int>): (r: int)
    ensures ids == [] ==> r == 1
    ensures ids != [] ==> r - 1 in ids
    ensures forall x :: x in ids ==> x < r
  {
    if |ids| > 0 then MaxOf(ids) + 1 else 1
  }

  /** Identities listed in strictly increasing order (hence unique). */
  ghost predicate Increasing(ids: seq<int>) {
    forall i, j :: 0 <= i < j < |ids| ==> ids[i] < ids[j]
  }

  /** Appending the next identity keeps the list strictly increasing. */
  lemma NextIdKeepsIncreasing(ids: seq<int>)
    requires Increasing(ids)
    ensures Increasing(ids + [GetNextId(ids)])
    ensures GetNextId(ids) !in ids
  {
    var next := ids + [GetNextId(ids)];
    forall i, j | 0 <= i < j < |next| ensures next[i] < next[j] {
      if j == |ids| {
        assert next[i] == ids[i] && ids[i] in ids;
      }
    }
  }

  /** [1, 2, ..., n]. */
  function Range(n: nat): (r: seq<int>)
    ensures |r| == n
    ensures forall i :: 0 <= i < n ==> r[i] == i + 1
  {
    if n == 0 then [] else Range(n - 1) + [n]
  }

  /** The identities a store holds after n appends, starting empty. */
  function IdsAfter(n: nat): seq<int> {
    if n == 0 then [] else var ids := IdsAfter(n - 1); ids + [GetNextId(ids)]
  }

  /** Starting from an empty store, successive appends receive 1, 2, ..., n. */
  lemma {:induction false} IdsAfterIsRange(n: nat)
    ensures IdsAfter(n) == Range(n)
  {
    if n > 0 {
      IdsAfterIsRange(n - 1);
      var ids := Range(n - 1);
      forall x | x in ids ensures x <= n - 1 {
        var k :| 0 <= k < |ids| && ids[k] == x;
      }
      if n > 1 {
        assert ids[n - 2] == n - 1 && ids[n - 2] in ids;
      }
      assert GetNextId(ids) == n;
    }
  }

  // ---------------------------------------------------------------------------
  // `validateEmail`: /^[^\s@]+@[^\s@]+\.[^\s@]+$/
  // ---------------------------------------------------------------------------

  /** The characters ECMAScript's `\s` class matches: WhiteSpace and
      LineTerminator code points. */
  predicate IsJsWhitespace(c: char) {
    c == '\t' || c == '\n' || c == '\U{000B}' || c == '\U{000C}' || c == '\r' || c == ' '
    || c == '\U{00A0}' || c == '\U{1680}' || ('\U{2000}' <= c <= '\U{200A}')
    || c == '\U{2028}' || c == '\U{2029}' || c == '\U{202F}' || c == '\U{205F}'
    || c == '\U{3000}' || c == '\U{FEFF}'
  }

  /** One character of the class `[^\s@]`. */
  predicate EmailChar(c: char) {
    c != '@' && !IsJsWhitespace(c)
  }

  /** A match of `[^\s@]+`. */
  predicate EmailPart(t: string) {
    |t| > 0 && forall k :: 0 <= k < |t| ==> EmailChar(t[k])
  }

  /** `t` splits at a dot at position j into two matches of `[^\s@]+`. */
  predicate DotSplit(t: string, j: int) {
    1 <= j < |t| - 1 && t[j] == '.' && EmailPart(t[..j]) && EmailPart(t[j + 1..])
  }

  /** A match of `[^\s@]+\.[^\s@]+`. */
  predicate DomainPart(t: string) {
    exists j | 1 <= j < |t| - 1 :: DotSplit(t, j)
  }

  /** `s` splits at an '@' at position i into a local part and a domain. */
  predicate AtSplit(s: string, i: int) {
    0 < i < |s| && s[i] == '@' && EmailPart(s[..i]) && DomainPart(s[i + 1..])
  }

  /** `validateEmail(email)`: the whole string matches the pattern. */
  predicate ValidateEmail(email: string)
    ensures ValidateEmail(email) ==> |email| >= 5 && email[0] != '@' && email[|email| - 1] != '@'
  {
    exists i | 0 < i < |email| :: AtSplit(email, i)
  }

  /** `validateEmail(v)` on a JavaScript value. `RegExp.prototype.test`
      converts its argument to a string; the text of undefined, null, a
      boolean or a number never contains '@', so only strings can pass. */
  predicate ValidateEmailValue(v: JsValue.Value)
    ensures ValidateEmailValue(v) ==> v.Str? && JsValue.Truthy(v)
    ensures !v.Str? ==> !ValidateEmailValue(v)
  {
    v.Str? && ValidateEmail(v.s)
  }

  /** Every `local@domain.tld` built from non-empty parts without whitespace or
      '@' is accepted. */
  lemma EmailOfParts(a: string, b: string, c: string)
    requires EmailPart(a) && EmailPart(b) && EmailPart(c)
    ensures ValidateEmail(a + "@" + b + "." + c)
  {
    var s := a + "@" + b + "." + c;
    var d := b + "." + c;
    assert s[..|a|] == a;
    assert s[|a| + 1..] == d;
    assert d[..|b|] == b && d[|b| + 1..] == c;
    assert DotSplit(d, |b|);
    assert AtSplit(s, |a|);
  }

  /** Splits a match of `[^\s@]+\.[^\s@]+` at one of its dots. */
  lemma DomainParts(d: string) returns (b: string, c: string)
    requires DomainPart(d)
    ensures d == b + "." + c && EmailPart(b) && EmailPart(c)
  {
    var j :| 1 <= j < |d| - 1 && DotSplit(d, j);
    b, c := d[..j], d[j + 1..];
    assert d == d[..j] + [d[j]] + d[j + 1..];
  }

  /** Every accepted string has that shape. */
  lemma EmailParts(s: string) returns (a: string, b: string, c: string)
    requires ValidateEmail(s)
    ensures s == a + "@" + b + "." + c
    ensures EmailPart(a) && EmailPart(b) && EmailPart(c)
  {
    var i :| 0 < i < |s| && AtSplit(s, i);
    var d := s[i + 1..];
    a := s[..i];
    b, c := DomainParts(d);
    assert s == a + "@" + d by {
      assert s == s[..i] + [s[i]] + s[i + 1..];
    }
    assert a + "@" + d == a + "@" + b + "." + c by {
      assert d == b + "." + c;
    }
  }

  /** A character that is not in `[^\s@]` occurs nowhere in a part. */
  lemma PartHasNoAt(t: string)
    requires EmailPart(t)
    ensures multiset(t)['@'] == 0
  {
    assert '@' !in t;
  }

  /** An accepted string has exactly one '@' and no whitespace; so a string
      with none or several '@', or with whitespace, is rejected. */
  lemma EmailRejects(s: string)
    ensures ValidateEmail(s) ==> multiset(s)['@'] == 1
    ensures ValidateEmail(s) ==> forall k :: 0 <= k < |s| ==> !IsJsWhitespace(s[k])
  {
    if ValidateEmail(s) {
      var a, b, c := EmailParts(s);
      PartHasNoAt(a);
      PartHasNoAt(b);
      PartHasNoAt(c);
      assert multiset(s) == multiset(a) + multiset("@") + multiset(b) + multiset(".") + multiset(c);
      forall k | 0 <= k < |s| ensures !IsJsWhitespace(s[k]) {
        if k < |a| {
          assert s[k] == a[k];
        } else if k == |a| {
          assert s[k] == '@';
        } else if k < |a| + 1 + |b| {
          assert s[k] == b[k - |a| - 1];
        } else if k == |a| + 1 + |b| {
          assert s[k] == '.';
        } else {
          assert s[k] == c[k - |a| - 2 - |b|];
        }
      }
    }
  }

  // ---------------------------------------------------------------------------
  // Response envelope: `createSuccessResponse`, `createErrorResponse`
  // ---------------------------------------------------------------------------

  datatype TextBlock = TextBlock(kind: string, text: string)

  /** `{ content: [...] }`, the envelope every tool returns. */
  datatype Response = Response(content: seq<TextBlock>)

  /** `{ content: [{ type: "text", text }] }`. */
  function TextResponse(text: string): (r: Response)
    ensures ResponseText(r) == Some(text)
  {
    Response([TextBlock("text", text)])
  }

  /** The text of an envelope holding exactly one text block. */
  function ResponseText(r: Response): Option<string> {
    if |r.content| == 1 && r.content[0].kind == "text" then Some(r.content[0].text) else None
  }

  const ERROR_PREFIX := "Error: "

  /** The message of an error envelope: its text with the "Error: " prefix
      stripped, or None when the text does not start with that prefix. */
  function ErrorMessage(r: Response): Option<string> {
    match ResponseText(r)
    case Some(t) =>
      if |t| >= |ERROR_PREFIX| && t[..|ERROR_PREFIX|] == ERROR_PREFIX then Some(t[|ERROR_PREFIX|..]) else None
    case None => None
  }

  function CreateSuccessResponse(message: string): (r: Response)
    ensures ResponseText(r) == Some(message)
  {
    TextResponse(message)
  }

  function CreateErrorResponse(error: string): (r: Response)
    ensures ResponseText(r) == Some(ERROR_PREFIX + error)
  {
    TextResponse(ERROR_PREFIX + error)
  }

  /** The message given to `createErrorResponse` is recovered from its
      envelope. */
  lemma ErrorResponseRoundTrip(error: string)
    ensures ErrorMessage(CreateErrorResponse(error)) == Some(error)
  {
    var t := ERROR_PREFIX + error;
    assert t[..|ERROR_PREFIX|] == ERROR_PREFIX && t[|ERROR_PREFIX|..] == error;
  }

  /** A success envelope whose text does not start with 'E' carries no error
      message. */
  lemma SuccessIsNotError(message: string)
    requires |message| > 0 && message[0] != 'E'
    ensures ErrorMessage(CreateSuccessResponse(message)) == None
  {
    assert ERROR_PREFIX[0] == 'E';
  }
}
