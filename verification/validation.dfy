/** The three validators of the product processor: the product-code format
    check, the description length check, and the combined check that adds
    the two business rules (no `TEST-` products, no deprecated products). */
module Validation {
  import opened Wrappers
  import opened Text

  const MaxCodeLength: nat := 50
  const MaxDescriptionLength: nat := 500
  const TestPrefix: string := "TEST-"
  const DeprecatedPrefix: string := "deprecated"

  /** Every validation message the processor can report. */
  datatype Message =
    | CodeRequired
    | CodeTooLong
    | CodeInvalidChars
    | DescriptionTooLong
    | TestProductNotAllowed
    | DeprecatedProduct
  {
    /** The message text as the processor records it. */
    function Wording(): string {
      match this
      case CodeRequired => "Product code is required"
      case CodeTooLong => "Product code exceeds maximum length"
      case CodeInvalidChars =>
        "Product code contains invalid characters (only letters, numbers, hyphen, underscore, and period allowed)"
      case DescriptionTooLong => "Description exceeds maximum length"
      case TestProductNotAllowed => "Test products not allowed in production"
      case DeprecatedProduct => "Deprecated products should not be imported"
    }

    /** Position of the check that reports this message in the combined
        validator: code checks first, then description, then the two
        business rules. */
    function Rank(): nat {
      match this
      case CodeRequired | CodeTooLong | CodeInvalidChars => 0
      case DescriptionTooLong => 1
      case TestProductNotAllowed => 2
      case DeprecatedProduct => 3
    }
  }

  /** Letters, digits, hyphen, underscore and period. */
  predicate IsCodeChar(c: char) {
    IsAlnum(c) || c == '-' || c == '_' || c == '.'
  }

  /** Reference definition of a well-formed product code. */
  predicate ValidCode(code: string) {
    0 < |code| <= MaxCodeLength && forall i :: 0 <= i < |code| ==> IsCodeChar(code[i])
  }

  /** Reference definition of a description the business rules reject:
      it starts with "deprecated" once lower-cased. */
  predicate IsDeprecated(description: string) {
    |description| > 0 && StartsWith(ToLower(description), DeprecatedPrefix)
  }

  /** The generator scan over the characters of a code. */
  function AllCodeChars(s: string): (r: bool)
    ensures r <==> forall i :: 0 <= i < |s| ==> IsCodeChar(s[i])
  {
    if s == [] then true else IsCodeChar(s[0]) && AllCodeChars(s[1..])
  }

  /** Validates the product-code format; the first failing rule decides the
      message. */
  function ValidateProductCode(code: string): (r: Option<Message>)
    ensures r == None <==> ValidCode(code)
    ensures r == Some(CodeRequired) <==> code == []
    ensures r == Some(CodeTooLong) <==> |code| > MaxCodeLength
    ensures r == Some(CodeInvalidChars)
        <==> 0 < |code| <= MaxCodeLength && exists i :: 0 <= i < |code| && !IsCodeChar(code[i])
  {
    if code == [] then Some(CodeRequired)
    else if |code| > MaxCodeLength then Some(CodeTooLong)
    else if !AllCodeChars(code) then Some(CodeInvalidChars)
    else None
  }

  /** Validates the description: it is optional, and bounded in length when
      present. */
  function ValidateDescription(description: string): (r: Option<Message>)
    ensures r == None <==> |description| <= MaxDescriptionLength
    ensures r == None || r == Some(DescriptionTooLong)
  {
    if description == [] then None
    else if |description| > MaxDescriptionLength then Some(DescriptionTooLong)
    else None
  }

  /** Runs every check and collects the messages in the order the checks
      run: at most one code message, then the description, test-product and
      deprecated-product messages, each reported exactly when its rule
      fails. */
  function ValidateProductData(code: string, description: string): (r: seq<Message>)
    ensures |r| <= 4
    ensures r == []
        <==> && ValidCode(code)
             && |description| <= MaxDescriptionLength
             && !StartsWith(code, TestPrefix)
             && !IsDeprecated(description)
    ensures InCheckOrder(r)
    ensures (r != [] && r[0].Rank() == 0) <==> !ValidCode(code)
    ensures !ValidCode(code) ==> Some(r[0]) == ValidateProductCode(code)
    ensures DescriptionTooLong in r <==> |description| > MaxDescriptionLength
    ensures TestProductNotAllowed in r <==> StartsWith(code, TestPrefix)
    ensures DeprecatedProduct in r <==> IsDeprecated(description)
  {
    var isTest := StartsWith(code, TestPrefix);
    var isDeprecated := description != [] && StartsWith(ToLower(description), DeprecatedPrefix);
    CollectMembers(ValidateProductCode(code), ValidateDescription(description), isTest, isDeprecated);
    Collect(ValidateProductCode(code), ValidateDescription(description), isTest, isDeprecated)
  }

  /** Ranks strictly increase along `r`. */
  predicate InCheckOrder(r: seq<Message>) {
    forall i, j :: 0 <= i < j < |r| ==> r[i].Rank() < r[j].Rank()
  }

  /** The messages of the two business rules, in the order they run. */
  function RuleMessages(isTest: bool, isDeprecated: bool): (r: seq<Message>)
    ensures |r| <= 2 && InCheckOrder(r)
    ensures forall i :: 0 <= i < |r| ==> r[i].Rank() >= 2
    ensures r == [] <==> !isTest && !isDeprecated
    ensures TestProductNotAllowed in r <==> isTest
    ensures DeprecatedProduct in r <==> isDeprecated
  {
    (if isTest then [TestProductNotAllowed] else [])
    + (if isDeprecated then [DeprecatedProduct] else [])
  }

  /** The description message, if any, followed by the rule messages. */
  function FieldAndRuleMessages(descriptionError: Option<Message>, isTest: bool,
                                isDeprecated: bool): (r: seq<Message>)
    requires descriptionError.Some? ==> descriptionError.value == DescriptionTooLong
    ensures |r| <= 3 && InCheckOrder(r)
    ensures forall i :: 0 <= i < |r| ==> r[i].Rank() >= 1
    ensures r == [] <==> descriptionError.None? && !isTest && !isDeprecated
    ensures DescriptionTooLong in r <==> descriptionError.Some?
    ensures TestProductNotAllowed in r <==> isTest
    ensures DeprecatedProduct in r <==> isDeprecated
  {
    var rules := RuleMessages(isTest, isDeprecated);
    if descriptionError.Some? then [DescriptionTooLong] + rules else rules
  }

  /** Appends the messages of the four checks in the order they run. */
  function Collect(codeError: Option<Message>, descriptionError: Option<Message>,
                   isTest: bool, isDeprecated: bool): (r: seq<Message>)
    requires codeError.Some? ==> codeError.value.Rank() == 0
    requires descriptionError.Some? ==> descriptionError.value == DescriptionTooLong
    ensures |r| <= 4 && InCheckOrder(r)
    ensures r == [] <==> codeError.None? && descriptionError.None? && !isTest && !isDeprecated
    ensures (r != [] && r[0].Rank() == 0) <==> codeError.Some?
    ensures codeError.Some? ==> r[0] == codeError.value
  {
    var rest := FieldAndRuleMessages(descriptionError, isTest, isDeprecated);
    if codeError.Some? then
      PrependInOrder(codeError.value, rest);
      [codeError.value] + rest
    else rest
  }

  /** A message ranked below every message of an ordered list can lead it. */
  lemma PrependInOrder(m: Message, rest: seq<Message>)
    requires InCheckOrder(rest)
    requires forall i :: 0 <= i < |rest| ==> m.Rank() < rest[i].Rank()
    ensures InCheckOrder([m] + rest)
  {
    var r := [m] + rest;
    forall i, j | 0 <= i < j < |r|
      ensures r[i].Rank() < r[j].Rank()
    {
      assert r[j] == rest[j - 1];
    }
  }

  /** Which messages `Collect` reports. */
  lemma CollectMembers(codeError: Option<Message>, descriptionError: Option<Message>,
                       isTest: bool, isDeprecated: bool)
    requires codeError.Some? ==> codeError.value.Rank() == 0
    requires descriptionError.Some? ==> descriptionError.value == DescriptionTooLong
    ensures var r := Collect(codeError, descriptionError, isTest, isDeprecated);
            && (DescriptionTooLong in r <==> descriptionError.Some?)
            && (TestProductNotAllowed in r <==> isTest)
            && (DeprecatedProduct in r <==> isDeprecated)
  {
    var rest := FieldAndRuleMessages(descriptionError, isTest, isDeprecated);
    var r := Collect(codeError, descriptionError, isTest, isDeprecated);
    assert r == (if codeError.Some? then [codeError.value] else []) + rest;
  }

  /** The deprecated rule ignores case: it fires exactly when the first ten
      characters spell "deprecated" in any mix of upper and lower case. */
  lemma DeprecatedIgnoresCase(description: string)
    ensures IsDeprecated(description)
        <==> && |DeprecatedPrefix| <= |description|
             && forall i :: 0 <= i < |DeprecatedPrefix|
                  ==> UpperChar(description[i]) == UpperChar(DeprecatedPrefix[i])
  {
    LowerStartsWith(description, DeprecatedPrefix);
  }
}
