/** The issue-report form: the ordered validation (with the email pattern
    `^[^\s@]+@[^\s@]+\.[^\s@]+$`), the request payload, and what submission does
    to the form. The two POST requests are modelled by their outcomes; the image
    is an opaque file handle and its preview an opaque data URL. */
module UserPortal {
  import opened Outcomes
  import opened Text

  datatype ImageFile = ImageFile(handle: string)

  datatype Form = Form(name: string, email: string, phone: string, description: string, image: Option<ImageFile>)

  const EmptyForm: Form := Form("", "", "", "", None)

  /** `[^\s@]`: neither whitespace nor '@'. */
  predicate IsAddressChar(c: char) {
    !IsWhitespace(c) && c != '@'
  }

  predicate AllAddressChars(s: string) {
    forall i :: 0 <= i < |s| ==> IsAddressChar(s[i])
  }

  /** The pattern read as a concatenation: a non-empty run of address
      characters, '@', a non-empty run, '.', a non-empty run. The runs may
      themselves contain '.', as `[^\s@]` allows it. */
  ghost predicate MatchesEmailPattern(s: string) {
    exists a: string, b: string, c: string ::
      && s == a + "@" + b + "." + c
      && |a| > 0 && |b| > 0 && |c| > 0
      && AllAddressChars(a) && AllAddressChars(b) && AllAddressChars(c)
  }

  /** The position of the first '@', if any. */
  function FirstAt(s: string): (r: Option<nat>)
    ensures r.Some? ==> r.value < |s| && s[r.value] == '@' && forall j :: 0 <= j < r.value ==> s[j] != '@'
    ensures r.None? ==> forall j :: 0 <= j < |s| ==> s[j] != '@'
  {
    if |s| == 0 then None
    else if s[0] == '@' then Some(0)
    else match FirstAt(s[1..])
      case None => None
      case Some(k) => Some(k + 1)
  }

  /** The domain part after '@': address characters with a '.' that has at
      least one character on each side. */
  predicate IsDomain(d: string) {
    AllAddressChars(d) && exists k :: 0 < k < |d| - 1 && d[k] == '.'
  }

  /** `emailRegex.test(email)`, decided by splitting at the first '@'. An
      accepted address has at least five characters, no whitespace and exactly
      one '@', which is not the first character. */
  function IsValidEmail(s: string): (b: bool)
    ensures b ==> 5 <= |s| && forall j :: 0 <= j < |s| ==> !IsWhitespace(s[j])
    ensures b ==> exists i :: 0 < i < |s| && s[i] == '@' && forall j :: 0 <= j < |s| && j != i ==> s[j] != '@'
  {
    match FirstAt(s)
    case None => false
    case Some(i) =>
      if i > 0 && AllAddressChars(s[..i]) && IsDomain(s[i + 1..]) then
        SplitShape(s, i);
        true
      else false
  }

  /** The characters around an accepted split are address characters. */
  lemma SplitShape(s: string, i: nat)
    requires 0 < i < |s| && s[i] == '@' && AllAddressChars(s[..i]) && IsDomain(s[i + 1..])
    ensures 5 <= |s| && forall j :: 0 <= j < |s| ==> !IsWhitespace(s[j])
    ensures forall j :: 0 <= j < |s| && j != i ==> s[j] != '@'
  {
    var d := s[i + 1..];
    forall j | 0 <= j < |s| && j != i ensures IsAddressChar(s[j]) {
      if j < i {
        assert s[j] == s[..i][j];
      } else {
        assert s[j] == d[j - i - 1];
      }
    }
  }

  /** Every string the split decision accepts matches the pattern. */
  lemma EmailTestSound(s: string)
    requires IsValidEmail(s)
    ensures MatchesEmailPattern(s)
  {
    var i := FirstAt(s).value;
    var d := s[i + 1..];
    var k :| 0 < k < |d| - 1 && d[k] == '.';
    var a, b, c := s[..i], d[..k], d[k + 1..];
    assert AllAddressChars(b) by {
      forall j | 0 <= j < |b| ensures IsAddressChar(b[j]) { assert b[j] == d[j]; }
    }
    assert AllAddressChars(c) by {
      forall j | 0 <= j < |c| ensures IsAddressChar(c[j]) { assert c[j] == d[k + 1 + j]; }
    }
    assert d == b + "." + c;
    assert s == a + "@" + d;
    assert s == a + "@" + b + "." + c;
  }

  /** Every string matching the pattern is accepted: its only '@' is the first. */
  lemma EmailTestComplete(s: string, a: string, b: string, c: string)
    requires s == a + "@" + b + "." + c
    requires |a| > 0 && |b| > 0 && |c| > 0
    requires AllAddressChars(a) && AllAddressChars(b) && AllAddressChars(c)
    ensures IsValidEmail(s)
  {
    var i := |a|;
    assert s[i] == '@';
    forall j | 0 <= j < i ensures s[j] != '@' { assert s[j] == a[j]; }
    assert FirstAt(s) == Some(i);
    assert s[..i] == a;
    var d := s[i + 1..];
    assert d == b + "." + c;
    assert d[|b|] == '.';
    forall j | 0 <= j < |d| ensures IsAddressChar(d[j]) {
      if j < |b| {
        assert d[j] == b[j];
      } else if j > |b| {
        assert d[j] == c[j - |b| - 1];
      }
    }
    assert IsDomain(d);
  }

  /** The split decision accepts exactly the strings the pattern matches. */
  lemma EmailTestMatchesPattern(s: string)
    ensures IsValidEmail(s) <==> MatchesEmailPattern(s)
  {
    if IsValidEmail(s) {
      EmailTestSound(s);
    }
    if MatchesEmailPattern(s) {
      var a: string, b: string, c: string :|
        && s == a + "@" + b + "." + c
        && |a| > 0 && |b| > 0 && |c| > 0
        && AllAddressChars(a) && AllAddressChars(b) && AllAddressChars(c);
      EmailTestComplete(s, a, b, c);
    }
  }

  /** Where address validation stops. */
  datatype Validation = Valid | MissingUserDetails | MissingDescription | InvalidEmail

  /** `validateForm`: the user details first (empty strings only, no trimming),
      then the description, then the email pattern. */
  function ValidateForm(f: Form): (v: Validation)
    ensures v == MissingUserDetails <==> (f.name == "" || f.email == "" || f.phone == "")
    ensures v == MissingDescription <==> (f.name != "" && f.email != "" && f.phone != "" && f.description == "")
    ensures v == InvalidEmail <==>
      (f.name != "" && f.email != "" && f.phone != "" && f.description != "" && !MatchesEmailPattern(f.email))
    ensures v == Valid <==>
      (f.name != "" && f.phone != "" && f.description != "" && MatchesEmailPattern(f.email))
  {
    EmailTestMatchesPattern(f.email);
    if f.name == "" || f.email == "" || f.phone == "" then MissingUserDetails
    else if f.description == "" then MissingDescription
    else if !IsValidEmail(f.email) then InvalidEmail
    else Valid
  }

  /** The description alone never gets past the user-detail check. */
  lemma DetailsCheckedBeforeDescription(f: Form)
    requires f.name == "" || f.email == "" || f.phone == ""
    ensures ValidateForm(f) == MissingUserDetails
    ensures ValidateForm(f.(description := "")) == MissingUserDetails
  {
  }

  /** One part of the multipart body. */
  datatype FormPart = TextPart(key: string, text: string) | FilePart(key: string, file: ImageFile)

  /** The multipart body of the issue request: description, the form's email as
      `user_email`, and an `image` part only when an image was chosen. */
  function IssuePayload(f: Form): (parts: seq<FormPart>)
    ensures |parts| >= 2
    ensures parts[0] == TextPart("description", f.description)
    ensures parts[1] == TextPart("user_email", f.email)
    ensures |parts| == 3 <==> f.image.Some?
    ensures |parts| == 3 ==> parts[2] == FilePart("image", f.image.value)
    ensures |parts| <= 3
  {
    var base := [TextPart("description", f.description), TextPart("user_email", f.email)];
    match f.image
    case Some(img) => base + [FilePart("image", img)]
    case None => base
  }

  /** The image part's presence follows the image exactly. */
  lemma PayloadHasImageIffImage(f: Form)
    ensures (exists p :: p in IssuePayload(f) && p.key == "image") <==> f.image.Some?
  {
    var parts := IssuePayload(f);
    if f.image.Some? {
      assert parts[2] in parts;
    }
  }

  /** The two requests, in the order they are sent. */
  datatype Request = CreateUser(name: string, email: string, phone: string) | CreateIssue(parts: seq<FormPart>)

  /** What the backend returns for a new issue, shown on the success card. */
  datatype Receipt = Receipt(issueId: string, category: string, assignedTechnician: Option<string>)

  datatype Portal = Portal(form: Form, imagePreview: Option<string>, isSubmitting: bool, submission: Option<Receipt>)

  const InitialPortal: Portal := Portal(EmptyForm, None, false, None)

  datatype Submitted = Submitted(portal: Portal, requests: seq<Request>)

  /** `submitIssue`. An invalid form sends nothing and changes nothing. A valid
      one creates the user, then (if that succeeded) the issue; full success
      resets the form and records the receipt, any failure keeps the form. */
  function SubmitIssue(p: Portal, userCall: Call<()>, issueCall: Call<Receipt>): (o: Submitted)
    ensures ValidateForm(p.form) != Valid ==> o == Submitted(p, [])
    ensures ValidateForm(p.form) == Valid ==>
      && !o.portal.isSubmitting
      && 1 <= |o.requests| <= 2
      && o.requests[0] == CreateUser(p.form.name, p.form.email, p.form.phone)
      && (|o.requests| == 2 <==> userCall.Ok?)
      && (|o.requests| == 2 ==> o.requests[1] == CreateIssue(IssuePayload(p.form)))
    ensures ValidateForm(p.form) == Valid && userCall.Ok? && issueCall.Ok? ==>
      && o.portal.form == EmptyForm && o.portal.imagePreview.None?
      && o.portal.submission == Some(issueCall.body)
    ensures ValidateForm(p.form) == Valid && (userCall.Failed? || issueCall.Failed?) ==>
      o.portal == p.(isSubmitting := false)
  {
    if ValidateForm(p.form) != Valid then Submitted(p, [])
    else
      var createUser := CreateUser(p.form.name, p.form.email, p.form.phone);
      match userCall
      case Failed => Submitted(p.(isSubmitting := false), [createUser])
      case Ok(_) =>
        var requests := [createUser, CreateIssue(IssuePayload(p.form))];
        match issueCall
        case Failed => Submitted(p.(isSubmitting := false), requests)
        case Ok(receipt) => Submitted(Portal(EmptyForm, None, false, Some(receipt)), requests)
  }

  /** After a successful submission the reset form is invalid, so pressing
      submit again without editing sends nothing. */
  lemma ResubmitAfterSuccessSendsNothing(p: Portal, userCall: Call<()>, issueCall: Call<Receipt>,
                                         userCall2: Call<()>, issueCall2: Call<Receipt>)
    requires ValidateForm(p.form) == Valid && userCall.Ok? && issueCall.Ok?
    ensures var q := SubmitIssue(p, userCall, issueCall).portal;
      SubmitIssue(q, userCall2, issueCall2).requests == []
  {
  }

  /** After a failure the same form can be sent again unchanged. */
  lemma RetryAfterFailureResendsSameRequests(p: Portal, issueCall: Call<Receipt>)
    requires ValidateForm(p.form) == Valid
    ensures var q := SubmitIssue(p, Failed, issueCall).portal;
      SubmitIssue(q, Ok(()), Ok(Receipt("", "", None))).requests
        == [CreateUser(p.form.name, p.form.email, p.form.phone), CreateIssue(IssuePayload(p.form))]
  {
  }

  /** "Submit Another Issue": back to the form. */
  function SubmitAnother(p: Portal): (q: Portal)
    ensures q.submission.None? && q.form == p.form
    ensures q.imagePreview == p.imagePreview && q.isSubmitting == p.isSubmitting
    ensures q == InitialPortal <==> p.form == EmptyForm && p.imagePreview.None? && !p.isSubmitting
  {
    p.(submission := None)
  }
}
