/**
 * The company record, its partial-update form, and their validation.
 * Whether a URL parses (net/url) is a parameter.
 */
module Companies {
  import opened Base
  import opened Text
  import opened Validation

  /**
   * A company. `techStack` is a Go slice, which may be nil (`None`) or a
   * non-nil, possibly empty, list.
   */
  datatype Company = Company(
    id: int,
    createdAt: int,
    updatedAt: int,
    name: string,
    url: string,
    techStack: Option<seq<string>>,
    version: int)

  /** A partial update: `None` is a nil pointer or a nil slice. */
  datatype PartialCompany = PartialCompany(
    name: Option<string>,
    url: Option<string>,
    techStack: Option<seq<string>>)

  /** The items of a slice; a nil slice has none. */
  function Items(ts: Option<seq<string>>): (xs: seq<string>)
    ensures ts.None? ==> xs == []
  {
    if ts.Some? then ts.value else []
  }

  /** The tech-stack checks that both Validate methods run on a non-nil stack. */
  function StackRules(ts: seq<string>): (rules: seq<Rule>)
    ensures forall i :: 0 <= i < |rules| ==> rules[i].key == "tech_stack"
  {
    [Rule(|ts| > 0, "tech_stack", "must not be empty"),
     Rule(|ts| <= 5, "tech_stack", "must not be more than 5 items"),
     Rule(NoDuplicates(ts), "tech_stack", "must not contain duplicate items")]
  }

  function UrlRules(url: string, isURL: string -> bool): (rules: seq<Rule>)
    ensures forall i :: 0 <= i < |rules| ==> rules[i].key == "url"
  {
    [Rule(isURL(url), "url", "must be a valid URL")]
  }

  /** Company.Validate: name, URL, then the stack, which must also be non-nil. */
  function CompanyRules(c: Company, isURL: string -> bool): seq<Rule> {
    NameRules(c.name) + UrlRules(c.url, isURL)
    + [Rule(c.techStack.Some?, "tech_stack", "must be provided")] + StackRules(Items(c.techStack))
  }

  /** The three tech-stack Checks, the last on what Unique reports. */
  method CheckStack(ts: seq<string>, v: Validator)
    requires v.Inv()
    modifies v
    ensures v.Inv()
    ensures v.errors == Apply(old(v.errors), StackRules(ts))
  {
    ghost var e0 := v.errors;
    ghost var rules := StackRules(ts);
    v.Check(|ts| > 0, "tech_stack", "must not be empty");
    v.Check(|ts| <= 5, "tech_stack", "must not be more than 5 items");
    Apply3(e0, rules[0], rules[1], rules[2]);
    var unique := Unique(ts);
    v.Check(unique, "tech_stack", "must not contain duplicate items");
  }

  method Validate(c: Company, v: Validator, isURL: string -> bool)
    requires v.Inv()
    modifies v
    ensures v.Inv()
    ensures v.errors == Apply(old(v.errors), CompanyRules(c, isURL))
  {
    ghost var e0 := v.errors;
    ghost var names := NameRules(c.name);
    ghost var provided := [Rule(c.techStack.Some?, "tech_stack", "must be provided")];
    v.Check(c.name != "", "name", "must be provided");
    v.Check(ByteLen(c.name) <= 128, "name", "must not be more than 128 bytes");
    ApplyAppend(e0, [names[0]], [names[1]]);
    assert [names[0]] + [names[1]] == names;
    v.Check(isURL(c.url), "url", "must be a valid URL");
    ApplyAppend(e0, names, UrlRules(c.url, isURL));
    v.Check(c.techStack != None, "tech_stack", "must be provided");
    ApplyAppend(e0, names + UrlRules(c.url, isURL), provided);
    CheckStack(Items(c.techStack), v);
    ApplyAppend(e0, names + UrlRules(c.url, isURL) + provided, StackRules(Items(c.techStack)));
  }

  /** PartialCompany.Validate: the checks of each present field; the stack is not required. */
  function PartialRules(pc: PartialCompany, isURL: string -> bool): seq<Rule> {
    (if pc.name.Some? then NameRules(pc.name.value) else [])
    + (if pc.url.Some? then UrlRules(pc.url.value, isURL) else [])
    + (if pc.techStack.Some? then StackRules(pc.techStack.value) else [])
  }

  method ValidatePartial(pc: PartialCompany, v: Validator, isURL: string -> bool)
    requires v.Inv()
    modifies v
    ensures v.Inv()
    ensures v.errors == Apply(old(v.errors), PartialRules(pc, isURL))
  {
    ghost var e0 := v.errors;
    ghost var names := if pc.name.Some? then NameRules(pc.name.value) else [];
    ghost var urls := if pc.url.Some? then UrlRules(pc.url.value, isURL) else [];
    ghost var stacks := if pc.techStack.Some? then StackRules(pc.techStack.value) else [];
    if pc.name.Some? {
      v.Check(pc.name.value != "", "name", "must be provided");
      v.Check(ByteLen(pc.name.value) <= 128, "name", "must not be more than 128 bytes");
      ApplyAppend(e0, [names[0]], [names[1]]);
      assert [names[0]] + [names[1]] == names;
    }
    if pc.url.Some? {
      v.Check(isURL(pc.url.value), "url", "must be a valid URL");
    }
    ApplyAppend(e0, names, urls);
    if pc.techStack.Some? {
      CheckStack(pc.techStack.value, v);
    }
    ApplyAppend(e0, names + urls, stacks);
  }

  /** The messages Company.Validate records under one key, group by group. */
  lemma CompanyFailed(c: Company, isURL: string -> bool, key: string)
    ensures Failed(CompanyRules(c, isURL), key)
         == Failed(NameRules(c.name), key) + Failed(UrlRules(c.url, isURL), key)
          + Failed([Rule(c.techStack.Some?, "tech_stack", "must be provided")], key)
          + Failed(StackRules(Items(c.techStack)), key)
  {
    var names := NameRules(c.name);
    var urls := UrlRules(c.url, isURL);
    var provided := [Rule(c.techStack.Some?, "tech_stack", "must be provided")];
    FailedAppend(names, urls, key);
    FailedAppend(names + urls, provided, key);
    FailedAppend(names + urls + provided, StackRules(Items(c.techStack)), key);
  }

  /**
   * The messages per key: "name" for an empty or over-long name, "url" exactly when
   * the URL does not parse, and under "tech_stack" a nil stack gets both the missing
   * and the empty message.
   */
  lemma CompanyMessages(c: Company, isURL: string -> bool)
    ensures Failed(CompanyRules(c, isURL), "name") != [] <==> c.name == "" || ByteLen(c.name) > 128
    ensures Failed(CompanyRules(c, isURL), "url") == (if isURL(c.url) then [] else ["must be a valid URL"])
    ensures c.techStack.None? ==>
              Failed(CompanyRules(c, isURL), "tech_stack") == ["must be provided", "must not be empty"]
  {
    CompanyNameFailed(c, isURL);
    NameMessages(c.name);
    UrlMessages(c, isURL);
    if c.techStack.None? {
      NilStackMessages(c, isURL);
    }
  }

  /** Under "url" there is one message exactly when the URL does not parse. */
  lemma UrlMessages(c: Company, isURL: string -> bool)
    ensures Failed(CompanyRules(c, isURL), "url") == (if isURL(c.url) then [] else ["must be a valid URL"])
  {
    CompanyUrlFailed(c, isURL);
    var urls := UrlRules(c.url, isURL);
    FailedCons(urls[0], [], "url");
    assert urls == [urls[0]] + [];
  }

  /** A nil stack is both missing and empty. */
  lemma NilStackMessages(c: Company, isURL: string -> bool)
    requires c.techStack.None?
    ensures Failed(CompanyRules(c, isURL), "tech_stack") == ["must be provided", "must not be empty"]
  {
    CompanyStackFailed(c, isURL);
    var stack := StackRules([]);
    Failed3(stack[0], stack[1], stack[2], "tech_stack");
  }

  lemma CompanyKeys()
    ensures "name" != "url" && "name" != "tech_stack" && "url" != "tech_stack"
  {
    assert "name"[0] == 'n' && "url"[0] == 'u' && "tech_stack"[0] == 't';
  }

  /** Under "name" the messages come from the name's rules alone. */
  lemma CompanyNameFailed(c: Company, isURL: string -> bool)
    ensures Failed(CompanyRules(c, isURL), "name") == Failed(NameRules(c.name), "name")
  {
    var key := "name";
    CompanyKeys();
    CompanyFailed(c, isURL, key);
    FailedOtherKey(UrlRules(c.url, isURL), key);
    FailedOtherKey([Rule(c.techStack.Some?, "tech_stack", "must be provided")], key);
    FailedOtherKey(StackRules(Items(c.techStack)), key);
    assert Failed(NameRules(c.name), key) + [] + [] + [] == Failed(NameRules(c.name), key);
  }

  /** Under "url" the messages come from the URL's rule alone. */
  lemma CompanyUrlFailed(c: Company, isURL: string -> bool)
    ensures Failed(CompanyRules(c, isURL), "url") == Failed(UrlRules(c.url, isURL), "url")
  {
    var key := "url";
    CompanyKeys();
    CompanyFailed(c, isURL, key);
    FailedOtherKey(NameRules(c.name), key);
    FailedOtherKey([Rule(c.techStack.Some?, "tech_stack", "must be provided")], key);
    FailedOtherKey(StackRules(Items(c.techStack)), key);
    assert [] + Failed(UrlRules(c.url, isURL), key) + [] + [] == Failed(UrlRules(c.url, isURL), key);
  }

  /** Under "tech_stack" the messages are the missing-stack one, then the stack's own. */
  lemma CompanyStackFailed(c: Company, isURL: string -> bool)
    ensures Failed(CompanyRules(c, isURL), "tech_stack")
         == Failed([Rule(c.techStack.Some?, "tech_stack", "must be provided")], "tech_stack")
          + Failed(StackRules(Items(c.techStack)), "tech_stack")
  {
    var key := "tech_stack";
    var provided := [Rule(c.techStack.Some?, "tech_stack", "must be provided")];
    var stack := StackRules(Items(c.techStack));
    CompanyKeys();
    CompanyFailed(c, isURL, key);
    FailedOtherKey(NameRules(c.name), key);
    FailedOtherKey(UrlRules(c.url, isURL), key);
    assert [] + [] + Failed(provided, key) + Failed(stack, key) == Failed(provided, key) + Failed(stack, key);
  }

  /** The name gets a message exactly when it is empty or longer than 128 bytes. */
  lemma NameMessages(name: string)
    ensures Failed(NameRules(name), "name") != [] <==> name == "" || ByteLen(name) > 128
  {
    var names := NameRules(name);
    FailedCons(names[0], [names[1]], "name");
    FailedCons(names[1], [], "name");
    assert names == [names[0]] + [names[1]];
  }

  /** An over-long stack, and a stack with a repeated item, each get their own message. */
  lemma {:induction false} StackMessages(ts: seq<string>)
    ensures |ts| > 5 ==> "must not be more than 5 items" in Failed(StackRules(ts), "tech_stack")
    ensures !NoDuplicates(ts) ==> "must not contain duplicate items" in Failed(StackRules(ts), "tech_stack")
    ensures 0 < |ts| <= 5 && NoDuplicates(ts) ==> Failed(StackRules(ts), "tech_stack") == []
  {
    var rs := StackRules(ts);
    Failed3(rs[0], rs[1], rs[2], "tech_stack");
  }

  /**
   * A present field of a partial update is checked as Company.Validate checks it:
   * for a partial update with every field present, each key gets the messages a
   * company with those values would get. An absent field gets none.
   */
  lemma {:induction false} PartialLikeCompany(pc: PartialCompany, c: Company, isURL: string -> bool, key: string)
    requires pc.name == Some(c.name) && pc.url == Some(c.url) && pc.techStack == c.techStack && c.techStack.Some?
    ensures Failed(PartialRules(pc, isURL), key) == Failed(CompanyRules(c, isURL), key)
  {
    var names := NameRules(c.name);
    var urls := UrlRules(c.url, isURL);
    var stack := StackRules(Items(c.techStack));
    CompanyFailed(c, isURL, key);
    FailedAppend(names, urls, key);
    FailedAppend(names + urls, stack, key);
    assert PartialRules(pc, isURL) == names + urls + stack;
  }

  /** The messages PartialCompany.Validate records under one key, field by field. */
  lemma PartialFailed(pc: PartialCompany, isURL: string -> bool, key: string)
    ensures Failed(PartialRules(pc, isURL), key)
         == Failed(if pc.name.Some? then NameRules(pc.name.value) else [], key)
          + Failed(if pc.url.Some? then UrlRules(pc.url.value, isURL) else [], key)
          + Failed(if pc.techStack.Some? then StackRules(pc.techStack.value) else [], key)
  {
    var names := if pc.name.Some? then NameRules(pc.name.value) else [];
    var urls := if pc.url.Some? then UrlRules(pc.url.value, isURL) else [];
    var stacks := if pc.techStack.Some? then StackRules(pc.techStack.value) else [];
    FailedAppend(names, urls, key);
    FailedAppend(names + urls, stacks, key);
  }

  /** A field absent from a partial update records nothing under its key. */
  lemma {:induction false} PartialAbsentFields(pc: PartialCompany, isURL: string -> bool)
    ensures pc.name.None? ==> Failed(PartialRules(pc, isURL), "name") == []
    ensures pc.url.None? ==> Failed(PartialRules(pc, isURL), "url") == []
    ensures pc.techStack.None? ==> Failed(PartialRules(pc, isURL), "tech_stack") == []
  {
    if pc.name.None? {
      PartialAbsentKey(pc, isURL, "name");
    }
    if pc.url.None? {
      PartialAbsentKey(pc, isURL, "url");
    }
    if pc.techStack.None? {
      PartialAbsentKey(pc, isURL, "tech_stack");
    }
  }

  lemma {:induction false} PartialAbsentKey(pc: PartialCompany, isURL: string -> bool, key: string)
    requires key == "name" ==> pc.name.None?
    requires key == "url" ==> pc.url.None?
    requires key == "tech_stack" ==> pc.techStack.None?
    requires key == "name" || key == "url" || key == "tech_stack"
    ensures Failed(PartialRules(pc, isURL), key) == []
  {
    var names := if pc.name.Some? then NameRules(pc.name.value) else [];
    var urls := if pc.url.Some? then UrlRules(pc.url.value, isURL) else [];
    var stacks := if pc.techStack.Some? then StackRules(pc.techStack.value) else [];
    CompanyKeys();
    PartialFailed(pc, isURL, key);
    FailedOtherKey(names, key);
    FailedOtherKey(urls, key);
    FailedOtherKey(stacks, key);
    assert Failed(names, key) + Failed(urls, key) + Failed(stacks, key) == [];
  }
}
