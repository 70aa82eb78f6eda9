/** Message templates: `{name}` placeholders and the follow-up bodies made from them. */
module Templates {
  import opened Common
  import opened WallClock
  import Money

  /** A shop's own follow-up templates, or the three built-in ones when it has none. */
  type FollowupTexts = texts: seq<string> | texts != [] witness ["{business_name}"]

  /** What a shop contributes to its messages and limits. */
  datatype Shop = Shop(
    businessName: string, hoursText: string, bookingLink: string, ownerName: string, ownerPhone: string,
    twilioNumber: string, zone: Zone, window: Window,
    dailyLimit: int, perNumberLimit: int, ownerLimit: int, followupTemplates: FollowupTexts)

  datatype Estimate = Estimate(id: int, customerName: string, phone: string, job: string, amountCents: int, createdAt: int)

  predicate IsNameChar(c: char) {
    'a' <= c <= 'z' || 'A' <= c <= 'Z' || IsDigit(c) || c == '_'
  }

  function NameLength(s: string): (n: nat)
    ensures n <= |s|
  {
    if s != "" && IsNameChar(s[0]) then 1 + NameLength(s[1..]) else 0
  }

  /** The placeholder name at the front of `t`, if `t` starts with one. */
  function Placeholder(t: string): (name: string)
    ensures name != "" ==> |name| + 2 <= |t|
  {
    if t == "" || t[0] != '{' then ""
    else
      var n := NameLength(t[1..]);
      if n + 1 < |t| && t[n + 1] == '}' then t[1..n + 1] else ""
  }

  function Lookup(vars: map<string, string>, name: string): string {
    if Lower(name) in vars then vars[Lower(name)] else ""
  }

  function Render(t: string, vars: map<string, string>): string {
    if t == "" then ""
    else if Placeholder(t) != "" then Lookup(vars, Placeholder(t)) + Render(t[|Placeholder(t)| + 2..], vars)
    else [t[0]] + Render(t[1..], vars)
  }

  function FollowupVars(shop: Shop, e: Estimate): map<string, string> {
    map["business_name" := shop.businessName, "hours" := shop.hoursText, "booking_link" := shop.bookingLink,
        "owner_name" := shop.ownerName, "owner_phone" := shop.ownerPhone, "customer_name" := e.customerName,
        "job" := e.job, "amount" := Money.FormatMoney(e.amountCents), "phone" := e.phone,
        "need" := "", "location" := "", "urgency" := ""]
  }

  /** The template of a step: an empty or missing one falls back to the last. */
  function FollowupTemplate(shop: Shop, step: nat): string {
    var templates := shop.followupTemplates;
    if step < |templates| && templates[step] != "" then templates[step]
    else templates[|templates| - 1]
  }

  function FollowupBody(shop: Shop, e: Estimate, step: nat): string {
    Render(FollowupTemplate(shop, step), FollowupVars(shop, e))
  }

  /** How many placeholders of `t` ask for the variable `name`. */
  function Uses(t: string, name: string): nat {
    if t == "" then 0
    else if Placeholder(t) != "" then
      (if Lower(Placeholder(t)) == name then 1 else 0) + Uses(t[|Placeholder(t)| + 2..], name)
    else Uses(t[1..], name)
  }

  /** Blanking a variable that has a value shortens the text at every placeholder that uses it. */
  lemma {:induction false} RenderShrinks(t: string, vars: map<string, string>, name: string)
    requires name in vars && vars[name] != ""
    ensures |Render(t, vars)| >= |Render(t, vars[name := ""])| + Uses(t, name)
  {
    if t == "" {
    } else if Placeholder(t) != "" {
      RenderShrinks(t[|Placeholder(t)| + 2..], vars, name);
    } else {
      RenderShrinks(t[1..], vars, name);
    }
  }

  lemma {:induction false} RenderUnused(t: string, vars: map<string, string>, name: string)
    requires name in vars && Uses(t, name) == 0
    ensures Render(t, vars) == Render(t, vars[name := ""])
  {
    if t == "" {
    } else if Placeholder(t) != "" {
      RenderUnused(t[|Placeholder(t)| + 2..], vars, name);
    } else {
      RenderUnused(t[1..], vars, name);
    }
  }

  /** The text differs exactly when the blanked variable has a value and the template uses it. */
  lemma RenderDiffers(t: string, vars: map<string, string>, name: string)
    requires name in vars
    ensures Render(t, vars) == Render(t, vars[name := ""]) <==> vars[name] == "" || Uses(t, name) == 0
  {
    if vars[name] == "" {
      assert vars[name := ""] == vars;
    } else if Uses(t, name) == 0 {
      RenderUnused(t, vars, name);
    } else {
      RenderShrinks(t, vars, name);
    }
  }

  // ---------------------------------------------------------------- what a template says

  predicate IsName(name: string) {
    name != "" && forall c <- name :: 'a' <= c <= 'z' || 'A' <= c <= 'Z' || '0' <= c <= '9' || c == '_'
  }

  /** The text starts with a name in braces. */
  ghost predicate StartsWithName(t: string) {
    exists name: string :: IsName(name) && "{" + name + "}" <= t
  }

  lemma {:induction false} NameEnds(name: string, rest: string)
    requires (forall c <- name :: IsNameChar(c)) && (rest != "" ==> !IsNameChar(rest[0]))
    ensures NameLength(name + rest) == |name|
  {
    if name == "" {
      assert name + rest == rest;
    } else {
      assert (name + rest)[1..] == name[1..] + rest && name[0] in name;
      NameEnds(name[1..], rest);
    }
  }

  lemma {:induction false} NameIsNamed(s: string)
    ensures forall i :: 0 <= i < NameLength(s) ==> IsNameChar(s[i])
  {
    if s != "" && IsNameChar(s[0]) {
      NameIsNamed(s[1..]);
    }
  }

  /** The placeholder at the front is the name in braces there. */
  lemma PlaceholderIs(name: string, rest: string)
    requires IsName(name)
    ensures Placeholder("{" + name + "}" + rest) == name
  {
    var t := "{" + name + "}" + rest;
    assert t[1..] == name + ("}" + rest);
    NameEnds(name, "}" + rest);
    assert t[|name| + 1] == '}' && t[1..|name| + 1] == name;
  }

  lemma PlaceholderShape(t: string)
    ensures var name := Placeholder(t);
            name != "" ==> IsName(name) && "{" + name + "}" <= t
  {
    var name := Placeholder(t);
    if name != "" {
      NameIsNamed(t[1..]);
      assert "{" + name + "}" == t[..|name| + 2];
    }
  }

  /** The name in a template asks for this variable: letter by letter, capitals counting as small letters. */
  ghost predicate AsksFor(name: string, key: string) {
    |name| == |key| && forall i :: 0 <= i < |key| ==>
      if 'A' <= name[i] <= 'Z' then key[i] as int == name[i] as int + 32 else key[i] == name[i]
  }

  /** A name in braces becomes the value of its variable, in any letter case. */
  lemma RenderVariable(name: string, rest: string, vars: map<string, string>, key: string)
    requires IsName(name) && key in vars && AsksFor(name, key)
    ensures Render("{" + name + "}" + rest, vars) == vars[key] + Render(rest, vars)
  {
    RenderName(name, rest, vars);
    assert Lower(name) == key;
  }

  /** A name in braces that is no variable disappears. */
  lemma RenderUnknown(name: string, rest: string, vars: map<string, string>)
    requires IsName(name) && forall key <- vars :: !AsksFor(name, key)
    ensures Render("{" + name + "}" + rest, vars) == Render(rest, vars)
  {
    RenderName(name, rest, vars);
    assert AsksFor(name, Lower(name));
    assert "" + Render(rest, vars) == Render(rest, vars);
  }

  lemma RenderName(name: string, rest: string, vars: map<string, string>)
    requires IsName(name)
    ensures Render("{" + name + "}" + rest, vars) == Lookup(vars, name) + Render(rest, vars)
  {
    var t := "{" + name + "}" + rest;
    PlaceholderIs(name, rest);
    assert t[|name| + 2..] == rest;
  }

  /** A brace that starts no such name, and every other character, stays as it is. */
  lemma RenderPlain(t: string, vars: map<string, string>)
    requires t != "" && !StartsWithName(t)
    ensures Render(t, vars) == [t[0]] + Render(t[1..], vars)
  {
    PlaceholderShape(t);
  }

  /** What each of the twelve variables of a follow-up stands for. */
  lemma FollowupVarsAre(shop: Shop, e: Estimate)
    ensures var vars := FollowupVars(shop, e);
            && vars.Keys == {"business_name", "hours", "booking_link", "owner_name", "owner_phone", "customer_name",
                             "job", "amount", "phone", "need", "location", "urgency"}
            && vars["business_name"] == shop.businessName && vars["hours"] == shop.hoursText
            && vars["booking_link"] == shop.bookingLink && vars["owner_name"] == shop.ownerName
            && vars["owner_phone"] == shop.ownerPhone && vars["customer_name"] == e.customerName
            && vars["job"] == e.job && vars["amount"] == Money.FormatMoney(e.amountCents) && vars["phone"] == e.phone
            && vars["need"] == vars["location"] == vars["urgency"] == ""
  {
  }

  /** A step without a template of its own, or with an empty one, uses the last template. */
  lemma FollowupBodyIs(shop: Shop, e: Estimate, step: nat)
    ensures var templates, vars := shop.followupTemplates, FollowupVars(shop, e);
            && (step < |templates| && templates[step] != "" ==> FollowupBody(shop, e, step) == Render(templates[step], vars))
            && (step >= |templates| || templates[step] == "" ==> FollowupBody(shop, e, step) == Render(templates[|templates| - 1], vars))
  {
  }
}
