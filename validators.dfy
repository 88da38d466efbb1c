/**
 * The request validation rules of lib/validators.js and `validateHandler`.
 *
 * A rule chain is data: a field, where to find it, and its steps in order
 * (the `trim` sanitizer and checks, each check carrying the message it
 * reports). `RunSteps` is how the validation library runs a chain: steps run
 * in declaration order, a sanitizer changes the value the later steps see,
 * and every failing check adds its message (no chain stops at its first
 * failure). A standard check on an array value is applied to each element,
 * and `isArray` looks at the value as a whole.
 */
module Validators {
  import opened Wrappers

  /** A value as it arrives in a JSON body or a route parameter. */
  datatype JsonValue = Undefined | Str(s: string) | Bool(b: bool) | Arr(items: seq<string>)

  /** The string a standard check tests for a scalar value. */
  function ToText(v: JsonValue): string
    requires !v.Arr?
  {
    match v
    case Undefined => ""
    case Str(s) => s
    case Bool(b) => if b then "true" else "false"
  }

  /** The strings a standard check tests: each element of an array, or the value's text. */
  function Texts(v: JsonValue): seq<string>
  {
    if v.Arr? then v.items else [ToText(v)]
  }

  /** Every string the standard checks would test satisfies `p`. */
  predicate Each(v: JsonValue, p: string -> bool)
  {
    forall k :: 0 <= k < |Texts(v)| ==> p(Texts(v)[k])
  }

  /** JavaScript truthiness, as `if (!accept)` applies it. */
  predicate Truthy(v: JsonValue)
  {
    match v
    case Undefined => false
    case Str(s) => s != ""
    case Bool(b) => b
    case Arr(_) => true
  }

  /** JavaScript's `\s`: white space and line terminators. */
  predicate IsSpace(c: char)
  {
    c == ' ' || c == '\t' || c == '\n' || c == '\r' || c == '\U{000B}' || c == '\U{000C}'
    || c == '\U{00A0}' || c == '\U{1680}' || ('\U{2000}' <= c <= '\U{200A}')
    || c == '\U{2028}' || c == '\U{2029}' || c == '\U{202F}' || c == '\U{205F}'
    || c == '\U{3000}' || c == '\U{FEFF}'
  }

  /** The first index at or after `i` that is not white space, or `|s|`. */
  function SkipSpaces(s: string, i: nat): (r: nat)
    requires i <= |s|
    ensures i <= r <= |s|
    ensures forall k :: i <= k < r ==> IsSpace(s[k])
    ensures r == |s| || !IsSpace(s[r])
    decreases |s| - i
  {
    if i < |s| && IsSpace(s[i]) then SkipSpaces(s, i + 1) else i
  }

  /** The index just after the last character before `j`, and not before `lo`, that is not white space. */
  function SkipSpacesBack(s: string, lo: nat, j: nat): (r: nat)
    requires lo <= j <= |s|
    ensures lo <= r <= j
    ensures forall k :: r <= k < j ==> IsSpace(s[k])
    ensures r == lo || !IsSpace(s[r - 1])
  {
    if lo < j && IsSpace(s[j - 1]) then SkipSpacesBack(s, lo, j - 1) else j
  }

  /** Where the text `trim()` keeps starts and ends. */
  function TrimStart(s: string): nat
  {
    SkipSpaces(s, 0)
  }

  function TrimEnd(s: string): nat
  {
    SkipSpacesBack(s, TrimStart(s), |s|)
  }

  /**
   * The `trim()` sanitizer: the text between the leading and the trailing
   * white space; it is empty exactly when the text is blank.
   */
  function Trim(s: string): (r: string)
    ensures TrimStart(s) <= TrimEnd(s) <= |s| && r == s[TrimStart(s)..TrimEnd(s)]
    ensures forall k :: 0 <= k < |s| && !(TrimStart(s) <= k < TrimEnd(s)) ==> IsSpace(s[k])
    ensures r == [] || (!IsSpace(r[0]) && !IsSpace(r[|r| - 1]))
    ensures r == [] <==> forall k :: 0 <= k < |s| ==> IsSpace(s[k])
  {
    s[TrimStart(s)..TrimEnd(s)]
  }

  /** Trimming twice changes nothing more. */
  lemma {:induction false} TrimIdempotent(s: string)
    ensures Trim(Trim(s)) == Trim(s)
  {
    var r := Trim(s);
    if r != [] {
      assert TrimStart(r) == 0;
      assert TrimEnd(r) == |r|;
    }
  }

  function CountSelectors(s: string): (n: nat)
    ensures n <= |s|
    ensures (forall k :: 0 <= k < |s| ==> s[k] != '\U{FE0E}' && s[k] != '\U{FE0F}') ==> n == 0
  {
    if s == [] then 0
    else (if s[0] == '\U{FE0E}' || s[0] == '\U{FE0F}' then 1 else 0) + CountSelectors(s[1..])
  }

  /**
   * The length `isLength` measures: variation selectors U+FE0E and U+FE0F
   * are not counted. (A character here is a code point, so a surrogate pair
   * already counts once, as `isLength` counts it.)
   */
  function Length(s: string): (n: nat)
    ensures n <= |s|
    ensures (forall k :: 0 <= k < |s| ==> s[k] != '\U{FE0E}' && s[k] != '\U{FE0F}') ==> n == |s|
  {
    |s| - CountSelectors(s)
  }

  predicate IsAsciiAlnum(c: char)
  {
    ('0' <= c <= '9') || ('a' <= c <= 'z') || ('A' <= c <= 'Z')
  }

  datatype Check =
    | NotEmpty
    | MinLength(min: nat)
    | MaxLength(max: nat)
    | Alphanumeric
    | IsBoolean
    | IsArray(min: nat, max: nat)

  datatype Step = TrimText | Validate(check: Check, message: string)

  datatype Location = Body | Params

  datatype Rule = Rule(location: Location, field: string, steps: seq<Step>)

  /** A standard check on one string. */
  predicate Accepts(c: Check, text: string)
    requires !c.IsArray?
  {
    match c
    case NotEmpty => text != ""
    case MinLength(min) => Length(text) >= min
    case MaxLength(max) => Length(text) <= max
    case Alphanumeric => text != "" && forall k :: 0 <= k < |text| ==> IsAsciiAlnum(text[k])
    case IsBoolean => text == "true" || text == "false" || text == "1" || text == "0"
  }

  /** One message per element of `items` that check `c` rejects. */
  function FailuresOver(c: Check, message: string, items: seq<string>): (r: seq<string>)
    requires !c.IsArray?
    ensures r == [] <==> forall k :: 0 <= k < |items| ==> Accepts(c, items[k])
    ensures |r| <= |items|
    ensures forall k :: 0 <= k < |r| ==> r[k] == message
  {
    if items == [] then []
    else (if Accepts(c, items[0]) then [] else [message]) + FailuresOver(c, message, items[1..])
  }

  /** The messages check `c` reports for value `v`. */
  function CheckErrors(c: Check, message: string, v: JsonValue): (r: seq<string>)
    ensures forall k :: 0 <= k < |r| ==> r[k] == message
  {
    match c
    case IsArray(min, max) => if v.Arr? && min <= |v.items| <= max then [] else [message]
    case _ => FailuresOver(c, message, Texts(v))
  }

  /** The `trim()` sanitizer on a value: a scalar becomes its trimmed text, an array is trimmed element by element. */
  function TrimValue(v: JsonValue): (r: JsonValue)
    ensures v.Arr? ==> r.Arr? && |r.items| == |v.items| && forall k :: 0 <= k < |v.items| ==> r.items[k] == Trim(v.items[k])
    ensures !v.Arr? ==> r == Str(Trim(ToText(v)))
    ensures |Texts(r)| == |Texts(v)| && forall k :: 0 <= k < |Texts(v)| ==> Texts(r)[k] == Trim(Texts(v)[k])
  {
    match v
    case Arr(items) => Arr(seq(|items|, k requires 0 <= k < |items| => Trim(items[k])))
    case _ => Str(Trim(ToText(v)))
  }

  /** No message of the chain contains a comma. */
  predicate CommaFree(steps: seq<Step>)
  {
    forall k :: 0 <= k < |steps| && steps[k].Validate? ==> ',' !in steps[k].message
  }

  /** The messages a chain reports, in order. */
  function RunSteps(steps: seq<Step>, v: JsonValue): (r: seq<string>)
    ensures CommaFree(steps) ==> forall k :: 0 <= k < |r| ==> ',' !in r[k]
  {
    if steps == [] then []
    else
      match steps[0]
      case TrimText => RunSteps(steps[1..], TrimValue(v))
      case Validate(c, message) => CheckErrors(c, message, v) + RunSteps(steps[1..], v)
  }

  /** A request as the validators see it: its JSON body and its route parameters. */
  datatype Request = Request(body: map<string, JsonValue>, params: map<string, string>)

  function FieldValue(req: Request, location: Location, field: string): JsonValue
  {
    match location
    case Body => if field in req.body then req.body[field] else Undefined
    case Params => if field in req.params then Str(req.params[field]) else Undefined
  }

  /** `validationResult(req).array()` mapped to messages: every rule's messages, rule by rule. */
  function ValidationErrors(rules: seq<Rule>, req: Request): (r: seq<string>)
    ensures r == [] <==> forall k :: 0 <= k < |rules| ==>
              RunSteps(rules[k].steps, FieldValue(req, rules[k].location, rules[k].field)) == []
    ensures (forall k :: 0 <= k < |rules| ==> CommaFree(rules[k].steps)) ==> forall k :: 0 <= k < |r| ==> ',' !in r[k]
  {
    if rules == [] then []
    else
      RunSteps(rules[0].steps, FieldValue(req, rules[0].location, rules[0].field))
      + ValidationErrors(rules[1..], req)
  }

  // The chains, as lib/validators.js declares them.

  const NameSteps: seq<Step> :=
    [TrimText, Validate(NotEmpty, "Name is required"), Validate(MinLength(3), "Name must be at least 3 characters long")]
  const UsernameSteps: seq<Step> :=
    [TrimText, Validate(NotEmpty, "Username is required"),
     Validate(MinLength(5), "Username must be at least 5 characters long"),
     Validate(Alphanumeric, "Username can only contain letters and numbers")]
  const PasswordSteps: seq<Step> :=
    [TrimText, Validate(NotEmpty, "Password is required"), Validate(MinLength(8), "Password must be at least 8 characters long")]
  const BioSteps: seq<Step> :=
    [Validate(NotEmpty, "Bio is required"), TrimText, Validate(MaxLength(150), "Bio cannot be more than 150 characters long")]
  const GroupMembersSteps: seq<Step> :=
    [Validate(NotEmpty, "Please Enter Members"), Validate(IsArray(2, 100), "Members must be 2-100")]
  const AddedMembersSteps: seq<Step> :=
    [Validate(NotEmpty, "Please Enter Members"), Validate(IsArray(1, 97), "Members must be 1-97")]
  const AcceptSteps: seq<Step> :=
    [Validate(NotEmpty, "Please Add Accept"), Validate(IsBoolean, "Accept must be a boolean")]

  /** A field that only has to be present and non-empty, reported with `message`. */
  function Required(location: Location, field: string, message: string): Rule
  {
    Rule(location, field, [Validate(NotEmpty, message)])
  }

  const RegisterRules: seq<Rule> :=
    [Rule(Body, "name", NameSteps), Rule(Body, "username", UsernameSteps),
     Rule(Body, "password", PasswordSteps), Rule(Body, "bio", BioSteps)]
  const LogInRules: seq<Rule> :=
    [Rule(Body, "username", [TrimText, Validate(NotEmpty, "Username is required")]),
     Rule(Body, "password", [TrimText, Validate(NotEmpty, "Password is required")])]
  const NewGroupRules: seq<Rule> :=
    [Required(Body, "name", "Please Enter Name"), Rule(Body, "members", GroupMembersSteps)]
  const AddMemberRules: seq<Rule> :=
    [Required(Body, "chatId", "Please Enter Chat ID"), Rule(Body, "members", AddedMembersSteps)]
  const RemoveMemberRules: seq<Rule> :=
    [Required(Body, "chatId", "Please Enter Chat ID"), Required(Body, "userId", "Please Enter User ID")]
  const ChatIdRules: seq<Rule> :=
    [Required(Params, "id", "Please enter the Chat ID")]
  const RenameRules: seq<Rule> :=
    [Required(Params, "id", "Please Enter Chat ID"), Required(Body, "name", "Please Enter New Name")]
  const SendAttachmentsRules: seq<Rule> :=
    [Required(Body, "chatId", "Please Enter Chat ID")]
  const SendRequestRules: seq<Rule> :=
    [Required(Body, "userId", "Please Enter User ID")]
  const AcceptRequestRules: seq<Rule> :=
    [Required(Body, "requestId", "Please Enter Request ID"), Rule(Body, "accept", AcceptSteps)]
  const AdminLoginRules: seq<Rule> :=
    [Required(Body, "secretKey", "Please Enter Secret Key")]

  lemma RunTrimFirst(rest: seq<Step>, v: JsonValue)
    ensures RunSteps([TrimText] + rest, v) == RunSteps(rest, TrimValue(v))
  {
    assert ([TrimText] + rest)[1..] == rest;
  }

  lemma RunValidateFirst(c: Check, message: string, rest: seq<Step>, v: JsonValue)
    ensures RunSteps([Validate(c, message)] + rest, v) == CheckErrors(c, message, v) + RunSteps(rest, v)
  {
    assert ([Validate(c, message)] + rest)[1..] == rest;
  }

  /** A standard check on a scalar reports its message once or not at all. */
  lemma ScalarCheck(c: Check, message: string, v: JsonValue)
    requires !c.IsArray? && !v.Arr?
    ensures CheckErrors(c, message, v) == if Accepts(c, ToText(v)) then [] else [message]
  {
    assert [ToText(v)][1..] == [];
  }

  /** Two scalar checks in a row, on the text `t`. */
  lemma TwoScalarChecks(c1: Check, m1: string, c2: Check, m2: string, t: string)
    requires !c1.IsArray? && !c2.IsArray?
    ensures RunSteps([Validate(c1, m1), Validate(c2, m2)], Str(t)) ==
              (if Accepts(c1, t) then [] else [m1]) + (if Accepts(c2, t) then [] else [m2])
  {
    RunValidateFirst(c1, m1, [Validate(c2, m2)], Str(t));
    RunValidateFirst(c2, m2, [], Str(t));
    ScalarCheck(c1, m1, Str(t));
    ScalarCheck(c2, m2, Str(t));
  }

  // What each chain accepts. `t` is the text after trimming.

  /** `trim()` followed by two checks on the trimmed text. */
  lemma TrimThenTwoChecks(c1: Check, m1: string, c2: Check, m2: string, v: JsonValue)
    requires !c1.IsArray? && !c2.IsArray? && !v.Arr?
    ensures var t := Trim(ToText(v));
            RunSteps([TrimText, Validate(c1, m1), Validate(c2, m2)], v) ==
              (if Accepts(c1, t) then [] else [m1]) + (if Accepts(c2, t) then [] else [m2])
  {
    assert [TrimText, Validate(c1, m1), Validate(c2, m2)] == [TrimText] + [Validate(c1, m1), Validate(c2, m2)];
    RunTrimFirst([Validate(c1, m1), Validate(c2, m2)], v);
    TwoScalarChecks(c1, m1, c2, m2, Trim(ToText(v)));
  }

  /** `trim()` followed by three checks on the trimmed text. */
  lemma TrimThenThreeChecks(c1: Check, m1: string, c2: Check, m2: string, c3: Check, m3: string, v: JsonValue)
    requires !c1.IsArray? && !c2.IsArray? && !c3.IsArray? && !v.Arr?
    ensures var t := Trim(ToText(v));
            RunSteps([TrimText, Validate(c1, m1), Validate(c2, m2), Validate(c3, m3)], v) ==
              (if Accepts(c1, t) then [] else [m1]) + ((if Accepts(c2, t) then [] else [m2])
              + (if Accepts(c3, t) then [] else [m3]))
  {
    var t := Trim(ToText(v));
    var tail := [Validate(c2, m2), Validate(c3, m3)];
    var checks := [Validate(c1, m1)] + tail;
    var steps := [TrimText, Validate(c1, m1), Validate(c2, m2), Validate(c3, m3)];
    assert steps[1..] == checks;
    assert checks[1..] == tail;
    assert RunSteps(steps, v) == RunSteps(checks, Str(t));
    assert RunSteps(checks, Str(t)) == CheckErrors(c1, m1, Str(t)) + RunSteps(tail, Str(t));
    ScalarCheck(c1, m1, Str(t));
    TwoScalarChecks(c2, m2, c3, m3, t);
  }

  /** A chain without `isArray` passes on an array iff it passes on each element on its own. */
  lemma {:induction false} ElementWise(steps: seq<Step>, items: seq<string>)
    requires forall k :: 0 <= k < |steps| && steps[k].Validate? ==> !steps[k].check.IsArray?
    ensures RunSteps(steps, Arr(items)) == [] <==> forall k :: 0 <= k < |items| ==> RunSteps(steps, Str(items[k])) == []
    decreases steps
  {
    if steps != [] {
      var rest := steps[1..];
      assert forall k :: 0 <= k < |rest| && rest[k].Validate? ==> !rest[k].check.IsArray? by {
        forall k | 0 <= k < |rest| ensures rest[k] == steps[k + 1] { }
      }
      if steps[0].TrimText? {
        var trimmed := TrimValue(Arr(items)).items;
        ElementWise(rest, trimmed);
        TrimStepOnElements(steps, items);
      } else {
        ElementWise(rest, items);
        CheckStepOnElements(steps, items);
      }
    }
  }

  /** A leading `trim()` runs the rest of the chain on the trimmed array and on each trimmed element. */
  lemma TrimStepOnElements(steps: seq<Step>, items: seq<string>)
    requires steps != [] && steps[0].TrimText?
    ensures RunSteps(steps, Arr(items)) == RunSteps(steps[1..], TrimValue(Arr(items)))
    ensures forall k :: 0 <= k < |items| ==>
              RunSteps(steps, Str(items[k])) == RunSteps(steps[1..], Str(TrimValue(Arr(items)).items[k]))
  {
    forall k | 0 <= k < |items|
      ensures RunSteps(steps, Str(items[k])) == RunSteps(steps[1..], Str(TrimValue(Arr(items)).items[k]))
    {
      assert TrimValue(Str(items[k])) == Str(TrimValue(Arr(items)).items[k]);
    }
  }

  /** A leading standard check fails on an array iff it fails on some element. */
  lemma CheckStepOnElements(steps: seq<Step>, items: seq<string>)
    requires steps != [] && steps[0].Validate? && !steps[0].check.IsArray?
    ensures RunSteps(steps, Arr(items)) == [] <==>
              (forall k :: 0 <= k < |items| ==> Accepts(steps[0].check, items[k])) && RunSteps(steps[1..], Arr(items)) == []
    ensures forall k :: 0 <= k < |items| ==>
              (RunSteps(steps, Str(items[k])) == [] <==> Accepts(steps[0].check, items[k]) && RunSteps(steps[1..], Str(items[k])) == [])
  {
    var c, m := steps[0].check, steps[0].message;
    assert RunSteps(steps, Arr(items)) == FailuresOver(c, m, items) + RunSteps(steps[1..], Arr(items));
    forall k | 0 <= k < |items|
      ensures RunSteps(steps, Str(items[k])) == [] <==> Accepts(c, items[k]) && RunSteps(steps[1..], Str(items[k])) == []
    {
      assert RunSteps(steps, Str(items[k])) == FailuresOver(c, m, [items[k]]) + RunSteps(steps[1..], Str(items[k]));
      assert [items[k]][1..] == [];
    }
  }

  predicate NameOk(s: string)
  {
    Trim(s) != "" && Length(Trim(s)) >= 3
  }

  predicate UsernameOk(s: string)
  {
    var t := Trim(s);
    t != "" && Length(t) >= 5 && forall k :: 0 <= k < |t| ==> IsAsciiAlnum(t[k])
  }

  predicate PasswordOk(s: string)
  {
    Trim(s) != "" && Length(Trim(s)) >= 8
  }

  predicate BioOk(s: string)
  {
    s != "" && Length(Trim(s)) <= 150
  }

  /**
   * A name passes iff, trimmed, it is non-empty and at least 3 characters
   * long (each element, for an array); a failure reports each broken rule.
   */
  lemma NameRule(v: JsonValue)
    ensures !v.Arr? ==>
              var t := Trim(ToText(v));
              RunSteps(NameSteps, v) ==
                (if t == "" then ["Name is required"] else [])
                + (if Length(t) < 3 then ["Name must be at least 3 characters long"] else [])
    ensures RunSteps(NameSteps, v) == [] <==> Each(v, NameOk)
  {
    if !v.Arr? {
      NameText(v);
    } else {
      ElementWise(NameSteps, v.items);
      forall k | 0 <= k < |v.items| ensures RunSteps(NameSteps, Str(v.items[k])) == [] <==> NameOk(v.items[k]) {
        NameText(Str(v.items[k]));
      }
    }
  }

  lemma NameText(v: JsonValue)
    requires !v.Arr?
    ensures var t := Trim(ToText(v));
            RunSteps(NameSteps, v) ==
              (if t == "" then ["Name is required"] else [])
              + (if Length(t) < 3 then ["Name must be at least 3 characters long"] else [])
  {
    TrimThenTwoChecks(NotEmpty, "Name is required", MinLength(3), "Name must be at least 3 characters long", v);
  }

  /**
   * A username passes iff, trimmed, it is non-empty, at least 5 characters
   * long and only ASCII letters and digits (each element, for an array).
   */
  lemma UsernameRule(v: JsonValue)
    ensures RunSteps(UsernameSteps, v) == [] <==> Each(v, UsernameOk)
  {
    if !v.Arr? {
      UsernameText(v);
    } else {
      ElementWise(UsernameSteps, v.items);
      forall k | 0 <= k < |v.items| ensures RunSteps(UsernameSteps, Str(v.items[k])) == [] <==> UsernameOk(v.items[k]) {
        UsernameText(Str(v.items[k]));
      }
    }
  }

  lemma UsernameText(v: JsonValue)
    requires !v.Arr?
    ensures RunSteps(UsernameSteps, v) == [] <==> UsernameOk(ToText(v))
  {
    TrimThenThreeChecks(NotEmpty, "Username is required", MinLength(5), "Username must be at least 5 characters long",
                        Alphanumeric, "Username can only contain letters and numbers", v);
  }

  /** A password passes iff, trimmed, it is non-empty and at least 8 characters long (each element, for an array). */
  lemma PasswordRule(v: JsonValue)
    ensures RunSteps(PasswordSteps, v) == [] <==> Each(v, PasswordOk)
  {
    if !v.Arr? {
      PasswordText(v);
    } else {
      ElementWise(PasswordSteps, v.items);
      forall k | 0 <= k < |v.items| ensures RunSteps(PasswordSteps, Str(v.items[k])) == [] <==> PasswordOk(v.items[k]) {
        PasswordText(Str(v.items[k]));
      }
    }
  }

  lemma PasswordText(v: JsonValue)
    requires !v.Arr?
    ensures RunSteps(PasswordSteps, v) == [] <==> PasswordOk(ToText(v))
  {
    TrimThenTwoChecks(NotEmpty, "Password is required", MinLength(8), "Password must be at least 8 characters long", v);
  }

  /**
   * The bio is checked for emptiness before trimming and for length after
   * (each element, for an array).
   */
  lemma BioRule(v: JsonValue)
    ensures RunSteps(BioSteps, v) == [] <==> Each(v, BioOk)
  {
    if !v.Arr? {
      BioText(v);
    } else {
      ElementWise(BioSteps, v.items);
      forall k | 0 <= k < |v.items| ensures RunSteps(BioSteps, Str(v.items[k])) == [] <==> BioOk(v.items[k]) {
        BioText(Str(v.items[k]));
      }
    }
  }

  lemma BioText(v: JsonValue)
    requires !v.Arr?
    ensures RunSteps(BioSteps, v) == [] <==> BioOk(ToText(v))
  {
    CheckTrimCheck(NotEmpty, "Bio is required", MaxLength(150), "Bio cannot be more than 150 characters long", v);
  }

  /** A check on the raw text, `trim()`, then a check on the trimmed text. */
  lemma CheckTrimCheck(c1: Check, m1: string, c2: Check, m2: string, v: JsonValue)
    requires !c1.IsArray? && !c2.IsArray? && !v.Arr?
    ensures RunSteps([Validate(c1, m1), TrimText, Validate(c2, m2)], v) ==
              (if Accepts(c1, ToText(v)) then [] else [m1]) + (if Accepts(c2, Trim(ToText(v))) then [] else [m2])
  {
    var t := Trim(ToText(v));
    var last := [Validate(c2, m2)];
    calc {
      RunSteps([Validate(c1, m1), TrimText, Validate(c2, m2)], v);
      { assert [Validate(c1, m1), TrimText, Validate(c2, m2)] == [Validate(c1, m1)] + ([TrimText] + last);
        RunValidateFirst(c1, m1, [TrimText] + last, v); }
      CheckErrors(c1, m1, v) + RunSteps([TrimText] + last, v);
      { RunTrimFirst(last, v); }
      CheckErrors(c1, m1, v) + RunSteps(last, Str(t));
      { RunValidateFirst(c2, m2, [], Str(t)); }
      CheckErrors(c1, m1, v) + CheckErrors(c2, m2, Str(t));
    }
    ScalarCheck(c1, m1, v);
    ScalarCheck(c2, m2, Str(t));
  }

  /** So a bio of white space only passes, although it trims to nothing. */
  lemma BlankBioPasses(s: string)
    requires s != [] && forall k :: 0 <= k < |s| ==> IsSpace(s[k])
    ensures RunSteps(BioSteps, Str(s)) == []
    ensures Trim(s) == []
  {
    BioRule(Str(s));
  }

  /** A member list passes `notEmpty` then `isArray({min, max})` iff it is an array of `min` to `max` non-empty ids. */
  lemma MembersRule(min: nat, max: nat, m1: string, m2: string, v: JsonValue)
    ensures RunSteps([Validate(NotEmpty, m1), Validate(IsArray(min, max), m2)], v) == [] <==>
              v.Arr? && min <= |v.items| <= max && forall k :: 0 <= k < |v.items| ==> v.items[k] != ""
  {
    RunValidateFirst(NotEmpty, m1, [Validate(IsArray(min, max), m2)], v);
    RunValidateFirst(IsArray(min, max), m2, [], v);
    if !v.Arr? {
      ScalarCheck(NotEmpty, m1, v);
    }
  }

  /** Members of a new group: an array of 2 to 100 non-empty ids. */
  lemma GroupMembersRule(v: JsonValue)
    ensures RunSteps(GroupMembersSteps, v) == [] <==>
              v.Arr? && 2 <= |v.items| <= 100 && forall k :: 0 <= k < |v.items| ==> v.items[k] != ""
  {
    MembersRule(2, 100, "Please Enter Members", "Members must be 2-100", v);
  }

  /** Members added to a group: an array of 1 to 97 non-empty ids. */
  lemma AddedMembersRule(v: JsonValue)
    ensures RunSteps(AddedMembersSteps, v) == [] <==>
              v.Arr? && 1 <= |v.items| <= 97 && forall k :: 0 <= k < |v.items| ==> v.items[k] != ""
  {
    MembersRule(1, 97, "Please Enter Members", "Members must be 1-97", v);
  }

  predicate BooleanText(t: string)
  {
    t == "true" || t == "false" || t == "1" || t == "0"
  }

  /**
   * The `accept` field passes iff it is present and reads as a boolean: a
   * JSON boolean, one of the strings "true", "false", "1", "0", or an array
   * of such strings (the checks then apply to each element).
   */
  lemma AcceptRule(v: JsonValue)
    ensures RunSteps(AcceptSteps, v) == [] <==>
              if v.Arr? then forall k :: 0 <= k < |v.items| ==> BooleanText(v.items[k]) else BooleanText(ToText(v))
  {
    BooleanRule("Please Add Accept", "Accept must be a boolean", v);
  }

  /** `notEmpty` then `isBoolean`, whatever their messages. */
  lemma BooleanRule(m1: string, m2: string, v: JsonValue)
    ensures RunSteps([Validate(NotEmpty, m1), Validate(IsBoolean, m2)], v) == [] <==>
              if v.Arr? then forall k :: 0 <= k < |v.items| ==> BooleanText(v.items[k]) else BooleanText(ToText(v))
  {
    RunValidateFirst(NotEmpty, m1, [Validate(IsBoolean, m2)], v);
    RunValidateFirst(IsBoolean, m2, [], v);
    var items := if v.Arr? then v.items else [ToText(v)];
    assert CheckErrors(NotEmpty, m1, v) == FailuresOver(NotEmpty, m1, items);
    assert CheckErrors(IsBoolean, m2, v) == FailuresOver(IsBoolean, m2, items);
    BooleanItems(m1, m2, items);
    if !v.Arr? {
      assert |items| == 1 && items[0] == ToText(v);
    }
  }

  /** Every element is non-empty and boolean text exactly when every element is boolean text. */
  lemma BooleanItems(m1: string, m2: string, items: seq<string>)
    ensures FailuresOver(NotEmpty, m1, items) + FailuresOver(IsBoolean, m2, items) == [] <==>
              forall k :: 0 <= k < |items| ==> BooleanText(items[k])
  {
    assert forall k :: 0 <= k < |items| ==> (Accepts(IsBoolean, items[k]) <==> BooleanText(items[k]));
    assert forall k :: 0 <= k < |items| && BooleanText(items[k]) ==> Accepts(NotEmpty, items[k]);
  }

  predicate NonEmptyText(s: string)
  {
    s != ""
  }

  predicate FilledAfterTrim(s: string)
  {
    Trim(s) != ""
  }

  /** A lone `notEmpty` passes iff the value, or every element of an array, is non-empty. */
  lemma RequiredChain(m: string, v: JsonValue)
    ensures RunSteps([Validate(NotEmpty, m)], v) == [] <==> Each(v, NonEmptyText)
  {
    assert RunSteps([Validate(NotEmpty, m)], v) == FailuresOver(NotEmpty, m, Texts(v)) + RunSteps([], v);
  }

  /** `trim()` then `notEmpty` passes iff the value, or every element of an array, has a non-space character. */
  lemma TrimmedRequiredChain(m: string, v: JsonValue)
    ensures RunSteps([TrimText, Validate(NotEmpty, m)], v) == [] <==> Each(v, FilledAfterTrim)
  {
    assert RunSteps([TrimText, Validate(NotEmpty, m)], v) == RunSteps([Validate(NotEmpty, m)], TrimValue(v));
    RequiredChain(m, TrimValue(v));
  }

  lemma OneRule(r: Rule, req: Request)
    ensures ValidationErrors([r], req) == [] <==> RunSteps(r.steps, FieldValue(req, r.location, r.field)) == []
  {
  }

  lemma TwoRules(r1: Rule, r2: Rule, req: Request)
    ensures ValidationErrors([r1, r2], req) == [] <==>
              RunSteps(r1.steps, FieldValue(req, r1.location, r1.field)) == []
              && RunSteps(r2.steps, FieldValue(req, r2.location, r2.field)) == []
  {
    var rules := [r1, r2];
    assert rules[0] == r1 && rules[1] == r2;
  }

  lemma FourRules(r1: Rule, r2: Rule, r3: Rule, r4: Rule, req: Request)
    ensures ValidationErrors([r1, r2, r3, r4], req) == [] <==>
              && RunSteps(r1.steps, FieldValue(req, r1.location, r1.field)) == []
              && RunSteps(r2.steps, FieldValue(req, r2.location, r2.field)) == []
              && RunSteps(r3.steps, FieldValue(req, r3.location, r3.field)) == []
              && RunSteps(r4.steps, FieldValue(req, r4.location, r4.field)) == []
  {
    var rules := [r1, r2, r3, r4];
    assert rules[0] == r1 && rules[1] == r2 && rules[2] == r3 && rules[3] == r4;
  }

  /** Registration passes iff the name, username, password and bio each pass their rule. */
  lemma RegisterPasses(req: Request)
    ensures ValidationErrors(RegisterRules, req) == [] <==>
              && Each(FieldValue(req, Body, "name"), NameOk)
              && Each(FieldValue(req, Body, "username"), UsernameOk)
              && Each(FieldValue(req, Body, "password"), PasswordOk)
              && Each(FieldValue(req, Body, "bio"), BioOk)
  {
    NameRule(FieldValue(req, Body, "name"));
    UsernameRule(FieldValue(req, Body, "username"));
    PasswordRule(FieldValue(req, Body, "password"));
    BioRule(FieldValue(req, Body, "bio"));
    FourRules(RegisterRules[0], RegisterRules[1], RegisterRules[2], RegisterRules[3], req);
  }

  /** Log-in passes iff the username and the password each have a non-space character. */
  lemma LogInPasses(req: Request)
    ensures ValidationErrors(LogInRules, req) == [] <==>
              Each(FieldValue(req, Body, "username"), FilledAfterTrim) && Each(FieldValue(req, Body, "password"), FilledAfterTrim)
  {
    TrimmedRequiredChain("Username is required", FieldValue(req, Body, "username"));
    TrimmedRequiredChain("Password is required", FieldValue(req, Body, "password"));
    TwoRules(LogInRules[0], LogInRules[1], req);
  }

  /** A new group passes iff it has a name and 2 to 100 non-empty member ids. */
  lemma NewGroupPasses(req: Request)
    ensures var members := FieldValue(req, Body, "members");
            ValidationErrors(NewGroupRules, req) == [] <==>
              && Each(FieldValue(req, Body, "name"), NonEmptyText)
              && members.Arr? && 2 <= |members.items| <= 100
              && forall k :: 0 <= k < |members.items| ==> members.items[k] != ""
  {
    RequiredChain("Please Enter Name", FieldValue(req, Body, "name"));
    GroupMembersRule(FieldValue(req, Body, "members"));
    TwoRules(NewGroupRules[0], NewGroupRules[1], req);
  }

  /** Adding members passes iff there is a chat id and 1 to 97 non-empty member ids. */
  lemma AddMemberPasses(req: Request)
    ensures var members := FieldValue(req, Body, "members");
            ValidationErrors(AddMemberRules, req) == [] <==>
              && Each(FieldValue(req, Body, "chatId"), NonEmptyText)
              && members.Arr? && 1 <= |members.items| <= 97
              && forall k :: 0 <= k < |members.items| ==> members.items[k] != ""
  {
    RequiredChain("Please Enter Chat ID", FieldValue(req, Body, "chatId"));
    AddedMembersRule(FieldValue(req, Body, "members"));
    TwoRules(AddMemberRules[0], AddMemberRules[1], req);
  }

  /** Removing a member passes iff there are a chat id and a user id. */
  lemma RemoveMemberPasses(req: Request)
    ensures ValidationErrors(RemoveMemberRules, req) == [] <==>
              Each(FieldValue(req, Body, "chatId"), NonEmptyText) && Each(FieldValue(req, Body, "userId"), NonEmptyText)
  {
    RequiredChain("Please Enter Chat ID", FieldValue(req, Body, "chatId"));
    RequiredChain("Please Enter User ID", FieldValue(req, Body, "userId"));
    TwoRules(RemoveMemberRules[0], RemoveMemberRules[1], req);
  }

  /** A chat route passes iff its `id` parameter is non-empty. */
  lemma ChatIdPasses(req: Request)
    ensures ValidationErrors(ChatIdRules, req) == [] <==> Each(FieldValue(req, Params, "id"), NonEmptyText)
  {
    RequiredChain("Please enter the Chat ID", FieldValue(req, Params, "id"));
    OneRule(ChatIdRules[0], req);
  }

  /** Renaming passes iff the `id` parameter and the new name are non-empty. */
  lemma RenamePasses(req: Request)
    ensures ValidationErrors(RenameRules, req) == [] <==>
              Each(FieldValue(req, Params, "id"), NonEmptyText) && Each(FieldValue(req, Body, "name"), NonEmptyText)
  {
    RequiredChain("Please Enter Chat ID", FieldValue(req, Params, "id"));
    RequiredChain("Please Enter New Name", FieldValue(req, Body, "name"));
    TwoRules(RenameRules[0], RenameRules[1], req);
  }

  /** Sending attachments passes iff there is a chat id. */
  lemma SendAttachmentsPasses(req: Request)
    ensures ValidationErrors(SendAttachmentsRules, req) == [] <==> Each(FieldValue(req, Body, "chatId"), NonEmptyText)
  {
    RequiredChain("Please Enter Chat ID", FieldValue(req, Body, "chatId"));
    OneRule(SendAttachmentsRules[0], req);
  }

  /** Sending a friend request passes iff there is a user id. */
  lemma SendRequestPasses(req: Request)
    ensures ValidationErrors(SendRequestRules, req) == [] <==> Each(FieldValue(req, Body, "userId"), NonEmptyText)
  {
    RequiredChain("Please Enter User ID", FieldValue(req, Body, "userId"));
    OneRule(SendRequestRules[0], req);
  }

  /** An accept-request body passes iff `requestId` is non-empty and `accept` passes its rule. */
  lemma AcceptRequestPasses(req: Request)
    ensures ValidationErrors(AcceptRequestRules, req) == [] <==>
              Each(FieldValue(req, Body, "requestId"), NonEmptyText) && RunSteps(AcceptSteps, FieldValue(req, Body, "accept")) == []
  {
    RequiredChain("Please Enter Request ID", FieldValue(req, Body, "requestId"));
    TwoRules(AcceptRequestRules[0], AcceptRequestRules[1], req);
  }

  /** The admin login passes iff the secret key, or every element of an array, is non-empty. */
  lemma AdminLoginPasses(req: Request)
    ensures ValidationErrors(AdminLoginRules, req) == [] <==> Each(FieldValue(req, Body, "secretKey"), NonEmptyText)
  {
    RequiredChain("Please Enter Secret Key", FieldValue(req, Body, "secretKey"));
    OneRule(AdminLoginRules[0], req);
  }

  /** The string "false" passes the `accept` rule, and it is truthy, so `if (!accept)` treats it as an acceptance. */
  lemma FalseStringAccepts()
    ensures RunSteps(AcceptSteps, Str("false")) == []
    ensures Truthy(Str("false"))
  {
    AcceptRule(Str("false"));
  }

  datatype Verdict = Proceed | Reject(status: int, message: string)

  const Separator: string := " , "

  /** `Array.prototype.join` with separator `sep`. */
  function Join(parts: seq<string>, sep: string): (r: string)
    ensures |parts| == 1 ==> r == parts[0]
  {
    if parts == [] then ""
    else if |parts| == 1 then parts[0]
    else parts[0] + sep + Join(parts[1..], sep)
  }

  /** `validateHandler`: on to the next handler iff there are no errors, else a 400 error with the messages joined. */
  function ValidateHandler(errors: seq<string>): (r: Verdict)
    ensures r.Proceed? <==> errors == []
    ensures r.Reject? ==> r.status == 400 && r.message == Join(errors, Separator)
  {
    if errors == [] then Proceed else Reject(400, Join(errors, Separator))
  }

  /** The separator " , " occurs in `s` at index `k`. */
  predicate SeparatorAt(s: string, k: nat)
  {
    k + 3 <= |s| && s[k] == ' ' && s[k + 1] == ',' && s[k + 2] == ' '
  }

  /** The first index at or after `i` where the separator occurs, or `|s|`. */
  function FindSeparator(s: string, i: nat): (r: nat)
    requires i <= |s|
    ensures i <= r <= |s|
    ensures r < |s| ==> SeparatorAt(s, r)
    ensures forall k :: i <= k < r ==> !SeparatorAt(s, k)
    decreases |s| - i
  {
    if i + 3 > |s| then |s|
    else if SeparatorAt(s, i) then i
    else FindSeparator(s, i + 1)
  }

  /** Cutting a joined message back into its parts. */
  function Split(s: string): (r: seq<string>)
    ensures |r| >= 1
    decreases |s|
  {
    var k := FindSeparator(s, 0);
    if k == |s| then [s] else [s[..k]] + Split(s[k + 3..])
  }

  /** Where no part has a comma, the only separators in the joined text are the ones `Join` put there. */
  lemma FirstSeparatorAt(m: string, rest: string)
    requires ',' !in m
    ensures FindSeparator(m + Separator + rest, 0) == |m|
    ensures FindSeparator(m, 0) == |m|
  {
    var s := m + Separator + rest;
    forall k | 0 <= k < |m| ensures !SeparatorAt(s, k) && !SeparatorAt(m, k) {
      if k + 1 < |m| { assert s[k + 1] == m[k + 1]; assert m[k + 1] in m; } else { assert s[k + 1] == ' '; }
    }
    assert SeparatorAt(s, |m|);
  }

  /** Splitting a joined, non-empty list of comma-free messages gives the list back. */
  lemma {:induction false} SplitJoin(parts: seq<string>)
    requires parts != []
    requires forall k :: 0 <= k < |parts| ==> ',' !in parts[k]
    ensures Split(Join(parts, Separator)) == parts
  {
    if |parts| == 1 {
      FirstSeparatorAt(parts[0], "");
    } else {
      var m, rest := parts[0], Join(parts[1..], Separator);
      var s := m + Separator + rest;
      FirstSeparatorAt(m, rest);
      assert s[..|m|] == m;
      assert s[|m| + 3..] == rest;
      SplitJoin(parts[1..]);
    }
  }

  /** The message of a rejection lists the failed rules' messages, in order, recoverably. */
  lemma RejectionListsEveryMessage(rules: seq<Rule>, req: Request)
    requires forall k :: 0 <= k < |rules| ==> CommaFree(rules[k].steps)
    requires ValidationErrors(rules, req) != []
    ensures var r := ValidateHandler(ValidationErrors(rules, req));
            r.Reject? && r.status == 400 && Split(r.message) == ValidationErrors(rules, req)
  {
    SplitJoin(ValidationErrors(rules, req));
  }

  predicate AllCommaFree(rules: seq<Rule>)
  {
    forall k :: 0 <= k < |rules| ==> CommaFree(rules[k].steps)
  }

  /** A join of two comma-free texts is comma-free. */
  lemma JoinCommaFree(front: string, back: string)
    requires ',' !in front && ',' !in back
    ensures ',' !in front + back
  {
  }

  // Each long message is checked as two halves short enough to inspect character by character.

  lemma NameLengthMessageCommaFree()
    ensures ',' !in "Name must be at least 3 characters long"
  {
    JoinCommaFree("Name must be at least", " 3 characters long");
    assert "Name must be at least 3 characters long" == "Name must be at least" + " 3 characters long";
  }

  lemma UsernameLengthMessageCommaFree()
    ensures ',' !in "Username must be at least 5 characters long"
  {
    JoinCommaFree("Username must be at", " least 5 characters long");
    assert "Username must be at least 5 characters long" == "Username must be at" + " least 5 characters long";
  }

  lemma UsernameCharsMessageCommaFree()
    ensures ',' !in "Username can only contain letters and numbers"
  {
    JoinCommaFree("Username can only contain", " letters and numbers");
    assert "Username can only contain letters and numbers" == "Username can only contain" + " letters and numbers";
  }

  lemma PasswordLengthMessageCommaFree()
    ensures ',' !in "Password must be at least 8 characters long"
  {
    JoinCommaFree("Password must be at", " least 8 characters long");
    assert "Password must be at least 8 characters long" == "Password must be at" + " least 8 characters long";
  }

  lemma BioLengthMessageCommaFree()
    ensures ',' !in "Bio cannot be more than 150 characters long"
  {
    JoinCommaFree("Bio cannot be more than", " 150 characters long");
    assert "Bio cannot be more than 150 characters long" == "Bio cannot be more than" + " 150 characters long";
  }

  /** The name chain's messages hold no comma. */
  lemma NameStepsCommaFree()
    ensures CommaFree(NameSteps)
  {
    NameLengthMessageCommaFree();
  }

  /** The username chain's messages hold no comma. */
  lemma UsernameStepsCommaFree()
    ensures CommaFree(UsernameSteps)
  {
    UsernameLengthMessageCommaFree();
    UsernameCharsMessageCommaFree();
  }

  /** The password chain's messages hold no comma. */
  lemma PasswordStepsCommaFree()
    ensures CommaFree(PasswordSteps)
  {
    PasswordLengthMessageCommaFree();
  }

  /** The bio chain's messages hold no comma. */
  lemma BioStepsCommaFree()
    ensures CommaFree(BioSteps)
  {
    BioLengthMessageCommaFree();
  }

  /** Registration's four chains hold no comma in any message. */
  lemma RegisterCommaFree()
    ensures AllCommaFree(RegisterRules)
  {
    NameStepsCommaFree();
    UsernameStepsCommaFree();
    PasswordStepsCommaFree();
    BioStepsCommaFree();
    var rules := RegisterRules;
    assert rules[0].steps == NameSteps && rules[1].steps == UsernameSteps;
    assert rules[2].steps == PasswordSteps && rules[3].steps == BioSteps;
  }

  /** The log-in validator's messages hold no comma. */
  lemma LogInCommaFree()
    ensures AllCommaFree(LogInRules)
  {
  }

  /** The new-group validator's messages hold no comma. */
  lemma NewGroupCommaFree()
    ensures AllCommaFree(NewGroupRules)
  {
  }

  /** The add-member validator's messages hold no comma. */
  lemma AddMemberCommaFree()
    ensures AllCommaFree(AddMemberRules)
  {
  }

  /** The remove-member validator's messages hold no comma. */
  lemma RemoveMemberCommaFree()
    ensures AllCommaFree(RemoveMemberRules)
  {
  }

  /** The chat-id validator's messages hold no comma. */
  lemma ChatIdCommaFree()
    ensures AllCommaFree(ChatIdRules)
  {
  }

  /** The rename validator's messages hold no comma. */
  lemma RenameCommaFree()
    ensures AllCommaFree(RenameRules)
  {
  }

  /** The send-attachments validator's messages hold no comma. */
  lemma SendAttachmentsCommaFree()
    ensures AllCommaFree(SendAttachmentsRules)
  {
  }

  /** The send-request validator's messages hold no comma. */
  lemma SendRequestCommaFree()
    ensures AllCommaFree(SendRequestRules)
  {
  }

  /** The accept-request validator's messages hold no comma. */
  lemma AcceptRequestCommaFree()
    ensures AllCommaFree(AcceptRequestRules)
  {
  }

  /** The admin-login validator's messages hold no comma. */
  lemma AdminLoginCommaFree()
    ensures AllCommaFree(AdminLoginRules)
  {
  }

  /** No message of any declared validator contains a comma, so every rejection can be split back into its messages. */
  lemma DeclaredRulesCommaFree()
    ensures AllCommaFree(RegisterRules) && AllCommaFree(LogInRules) && AllCommaFree(NewGroupRules)
    ensures AllCommaFree(AddMemberRules) && AllCommaFree(RemoveMemberRules) && AllCommaFree(ChatIdRules)
    ensures AllCommaFree(RenameRules) && AllCommaFree(SendAttachmentsRules) && AllCommaFree(SendRequestRules)
    ensures AllCommaFree(AcceptRequestRules) && AllCommaFree(AdminLoginRules)
  {
    RegisterCommaFree();
    LogInCommaFree();
    NewGroupCommaFree();
    AddMemberCommaFree();
    RemoveMemberCommaFree();
    ChatIdCommaFree();
    RenameCommaFree();
    SendAttachmentsCommaFree();
    SendRequestCommaFree();
    AcceptRequestCommaFree();
    AdminLoginCommaFree();
  }
}
