/** The send-email dialog (components/SendEmailModal.tsx): choosing a
    template fills in the subject and the body, with every `{{name}}` in the
    body, in any letter case, replaced by the lead's name; a successful send
    clears the form and closes the dialog. */
module SendEmailModal {
  import opened Common

  /** A stored template; subject and body may be missing. */
  datatype Template = Template(id: string, subject: Option<string>, body: Option<string>)

  /** The arguments of the `sendEmail` call. */
  datatype EmailRequest = EmailRequest(leadId: string, subject: string, body: string)

  const Placeholder := "{{name}}"
  const SentAlert := "Email sent successfully! (Simulated)"
  const ErrorAlertPrefix := "Error sending email: "

  // ---------------------------------------------------------------------------
  // The placeholder

  /** `w` is `{{name}}` in some letter case: the braces exactly, the four
      letters compared after ASCII lower-casing, which is what the `i` flag
      does for these letters. */
  predicate IsPlaceholder(w: string) {
    |w| == 8 && w[0] == '{' && w[1] == '{' && ToLowerChar(w[2]) == 'n' && ToLowerChar(w[3]) == 'a' &&
    ToLowerChar(w[4]) == 'm' && ToLowerChar(w[5]) == 'e' && w[6] == '}' && w[7] == '}'
  }

  /** `/\{\{name\}\}/i` matches at index `i`. */
  predicate PlaceholderAt(s: string, i: int) {
    0 <= i && i + 8 <= |s| && IsPlaceholder(s[i..i + 8])
  }

  /** `s.replace(/\{\{name\}\}/gi, name)`: scanning from the left, each match
      is replaced and the scan goes on after it, so the inserted name is
      never scanned again. */
  function ReplaceName(s: string, name: string): string
    decreases |s|
  {
    if s == [] then []
    else if PlaceholderAt(s, 0) then name + ReplaceName(s[8..], name)
    else [s[0]] + ReplaceName(s[1..], name)
  }

  lemma PlaceholderShift(s: string, i: int)
    requires s != [] && 0 <= i
    ensures PlaceholderAt(s[1..], i) <==> PlaceholderAt(s, i + 1)
  {
    if 0 <= i && i + 9 <= |s| {
      assert s[1..][i..i + 8] == s[i + 1..i + 9];
    }
  }

  /** A body without the placeholder is left as it is. */
  lemma {:induction false} NoPlaceholderUnchanged(s: string, name: string)
    requires forall i :: 0 <= i < |s| ==> !PlaceholderAt(s, i)
    ensures ReplaceName(s, name) == s
    decreases |s|
  {
    if s != [] {
      forall i | 0 <= i < |s| - 1
        ensures !PlaceholderAt(s[1..], i)
      {
        PlaceholderShift(s, i);
      }
      NoPlaceholderUnchanged(s[1..], name);
      assert !PlaceholderAt(s, 0);
      assert [s[0]] + s[1..] == s;
    }
  }

  /** The leftmost match is replaced by the name and the scan goes on after
      it: text before it is kept, and the rest is replaced in turn. */
  lemma {:induction false} LeftmostReplaced(a: string, p: string, b: string, name: string)
    requires IsPlaceholder(p)
    requires forall i :: 0 <= i < |a| ==> !PlaceholderAt(a + p + b, i)
    ensures ReplaceName(a + p + b, name) == a + name + ReplaceName(b, name)
    decreases |a|
  {
    var s := a + p + b;
    if a == [] {
      assert s == p + b;
      PlaceholderFirst(p, b, name);
    } else {
      var t := a[1..] + p + b;
      assert s[1..] == t;
      NoMatchShift(a, p, b);
      assert ReplaceName(s, name) == [a[0]] + ReplaceName(t, name) by {
        ReplaceKeeps(s, name);
      }
      assert ReplaceName(t, name) == a[1..] + name + ReplaceName(b, name) by {
        LeftmostReplaced(a[1..], p, b, name);
      }
      assert [a[0]] + (a[1..] + name + ReplaceName(b, name)) == a + name + ReplaceName(b, name);
    }
  }

  lemma NoMatchShift(a: string, p: string, b: string)
    requires a != []
    requires forall i :: 0 <= i < |a| ==> !PlaceholderAt(a + p + b, i)
    ensures !PlaceholderAt(a + p + b, 0)
    ensures forall i :: 0 <= i < |a| - 1 ==> !PlaceholderAt(a[1..] + p + b, i)
  {
    var s := a + p + b;
    assert s[1..] == a[1..] + p + b;
    forall i | 0 <= i < |a| - 1
      ensures !PlaceholderAt(a[1..] + p + b, i)
    {
      PlaceholderShift(s, i);
    }
  }

  lemma PlaceholderFirst(p: string, b: string, name: string)
    requires IsPlaceholder(p)
    ensures ReplaceName(p + b, name) == name + ReplaceName(b, name)
  {
    var s := p + b;
    assert s[..8] == p && s[8..] == b;
    assert PlaceholderAt(s, 0);
  }

  lemma ReplaceKeeps(s: string, name: string)
    requires s != [] && !PlaceholderAt(s, 0)
    ensures ReplaceName(s, name) == [s[0]] + ReplaceName(s[1..], name)
  {
  }

  /** Upper- and mixed-case spellings are replaced too. */
  lemma MixedCaseReplaced(name: string)
    ensures ReplaceName("{{NAME}}", name) == name
    ensures ReplaceName("{{Name}}", name) == name
  {
    assert IsPlaceholder("{{NAME}}"[0..8]);
    assert IsPlaceholder("{{Name}}"[0..8]);
  }

  /** A name that itself holds the placeholder is inserted as it is. */
  lemma NameNotRescanned()
    ensures ReplaceName(Placeholder, Placeholder) == Placeholder
  {
    assert PlaceholderAt(Placeholder, 0) by { assert Placeholder[0..8] == Placeholder; }
    assert Placeholder[8..] == [];
  }

  // ---------------------------------------------------------------------------
  // Choosing a template

  /** `templates.find(t => t.id === tId)`. */
  function FindTemplate(templates: seq<Template>, tId: string): (r: Option<Template>)
    ensures r.Some? <==> exists i :: 0 <= i < |templates| && templates[i].id == tId
    ensures r.Some? ==> r.value.id == tId &&
                        exists i :: 0 <= i < |templates| && templates[i] == r.value &&
                                    forall j :: 0 <= j < i ==> templates[j].id != tId
  {
    if templates == [] then None
    else if templates[0].id == tId then Some(templates[0])
    else
      var r := FindTemplate(templates[1..], tId);
      assert r.Some? ==> exists i :: 1 <= i < |templates| && templates[i] == r.value &&
                                     forall j :: 1 <= j < i ==> templates[j].id != tId
        by {
        if r.Some? {
          var i :| 0 <= i < |templates[1..]| && templates[1..][i] == r.value &&
                   forall j :: 0 <= j < i ==> templates[1..][j].id != tId;
          assert templates[i + 1] == r.value;
          forall j | 1 <= j < i + 1 ensures templates[j].id != tId {
            assert templates[j] == templates[1..][j - 1];
          }
        }
      }
      assert (exists i :: 0 <= i < |templates| && templates[i].id == tId) ==>
             (exists i :: 0 <= i < |templates[1..]| && templates[1..][i].id == tId)
        by {
        if exists i :: 0 <= i < |templates| && templates[i].id == tId {
          var i :| 0 <= i < |templates| && templates[i].id == tId;
          assert templates[1..][i - 1].id == tId;
        }
      }
      r
  }

  /** The subject a template gives: its own, or the empty string. */
  function TemplateSubject(t: Template): (s: string)
    ensures Truthy(t.subject) ==> s == t.subject.value
    ensures !Truthy(t.subject) ==> s == ""
  {
    OrElse(t.subject, "")
  }

  /** The body a template gives: its own, or the empty string, with the lead's name filled in. */
  function TemplateBody(t: Template, leadName: string): string {
    ReplaceName(OrElse(t.body, ""), leadName)
  }

  /** A template without a body gives an empty body. */
  lemma MissingBodyEmpty(t: Template, leadName: string)
    requires !Truthy(t.body)
    ensures TemplateBody(t, leadName) == ""
  {
  }

  /** The dialog's state. */
  class EmailModal {
    const leadId: string
    const leadName: string
    var templates: seq<Template>
    var open: bool
    var subject: string
    var body: string
    var loading: bool

    constructor(leadId: string, leadName: string)
      ensures this.leadId == leadId && this.leadName == leadName
      ensures templates == [] && !open && subject == "" && body == "" && !loading
    {
      this.leadId := leadId;
      this.leadName := leadName;
      templates := [];
      open := false;
      subject := "";
      body := "";
      loading := false;
    }

    /** The template list arrives when the dialog is opened. */
    method TemplatesLoaded(fetched: seq<Template>)
      modifies this
      ensures templates == fetched
      ensures open == old(open) && subject == old(subject) && body == old(body) && loading == old(loading)
    {
      templates := fetched;
    }

    /** `handleTemplateSelect`: the empty option and an unknown id change
        nothing; a known template replaces subject and body. */
    method HandleTemplateSelect(tId: string)
      modifies this
      ensures templates == old(templates) && open == old(open) && loading == old(loading)
      ensures tId == "" || FindTemplate(templates, tId).None? ==>
                subject == old(subject) && body == old(body)
      ensures tId != "" && FindTemplate(templates, tId).Some? ==>
                subject == TemplateSubject(FindTemplate(templates, tId).value) &&
                body == TemplateBody(FindTemplate(templates, tId).value, leadName)
    {
      if tId == "" {
        return;
      }
      var template := FindTemplate(templates, tId);
      if template.Some? {
        subject := OrElse(template.value.subject, "");
        var parsedBody := ReplaceName(OrElse(template.value.body, ""), leadName);
        body := parsedBody;
      }
    }

    /** `handleSend`: the email is sent with the current subject and body.
        A returned truthy error is shown and everything is kept; any other
        returned answer (no error, or an empty error text) clears the form
        and closes the dialog. A rejected call, with no `catch`, shows nothing
        and leaves the dialog as it was, still loading. */
    method HandleSend(reply: Reply) returns (request: EmailRequest, alert: Option<string>)
      modifies this
      ensures request == EmailRequest(leadId, old(subject), old(body))
      ensures templates == old(templates)
      ensures reply.Threw? ==> alert.None? && loading &&
                               open == old(open) && subject == old(subject) && body == old(body)
      ensures reply.Replied? ==> !loading
      ensures reply.Replied? && Truthy(reply.error) ==>
                alert == Some(ErrorAlertPrefix + reply.error.value) &&
                open == old(open) && subject == old(subject) && body == old(body)
      ensures reply.Replied? && !Truthy(reply.error) ==>
                alert == Some(SentAlert) && !open && subject == "" && body == ""
    {
      loading := true;
      request := EmailRequest(leadId, subject, body);
      alert := None;
      if reply.Threw? {
        return;
      }
      loading := false;
      if Truthy(reply.error) {
        alert := Some(ErrorAlertPrefix + reply.error.value);
      } else {
        open := false;
        subject := "";
        body := "";
        alert := Some(SentAlert);
      }
    }
  }
}
