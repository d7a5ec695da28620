/** Client state of the landing page (App.jsx): the contact form with its
    per-keystroke input guards and its submit status, and the two accordion
    widgets. The POST request is replaced by its outcome, passed in. */
module App {
  import opened Common

  // ---------------------------------------------------------------------------
  // Input guards

  predicate IsAsciiLetter(c: char)
  {
    'a' <= c <= 'z' || 'A' <= c <= 'Z'
  }

  /** `\s` of a JavaScript regular expression: the WhiteSpace and
      LineTerminator code points of ECMAScript. */
  predicate IsRegexSpace(c: char)
    ensures c == ' ' || c == '\t' || c == '\n' ==> IsRegexSpace(c)
    // no letter and no digit is white space
    ensures IsRegexSpace(c) ==> !IsAsciiLetter(c) && !IsDigit(c)
  {
    var n := c as int;
    n == 0x09 || n == 0x0A || n == 0x0B || n == 0x0C || n == 0x0D || n == 0x20 ||
    n == 0xA0 || n == 0x1680 || (0x2000 <= n <= 0x200A) || n == 0x2028 || n == 0x2029 ||
    n == 0x202F || n == 0x205F || n == 0x3000 || n == 0xFEFF
  }

  /** `/^[a-zA-Z\s]*$/.test(val)` */
  predicate NameInputOk(val: string)
    // clearing the field is always accepted
    ensures val == "" ==> NameInputOk(val)
    // an accepted name holds no digit
    ensures NameInputOk(val) ==> forall i :: 0 <= i < |val| ==> !IsDigit(val[i])
  {
    forall i :: 0 <= i < |val| ==> IsAsciiLetter(val[i]) || IsRegexSpace(val[i])
  }

  /** `/^\d*$/.test(val) && val.length <= 10` */
  predicate ContactInputOk(val: string)
    // clearing the field is always accepted
    ensures val == "" ==> ContactInputOk(val)
    // an accepted non-empty contact is never an accepted name
    ensures ContactInputOk(val) && val != "" ==> !NameInputOk(val)
  {
    // the first digit is neither a letter nor white space
    assert AllDigits(val) && val != "" ==> IsDigit(val[0]) && !IsAsciiLetter(val[0]) && !IsRegexSpace(val[0]);
    AllDigits(val) && |val| <= 10
  }

  /** Deleting the last character of an accepted value is accepted too. */
  lemma BackspaceAccepted(val: string)
    requires val != ""
    ensures NameInputOk(val) ==> NameInputOk(val[..|val| - 1])
    ensures ContactInputOk(val) ==> ContactInputOk(val[..|val| - 1])
  {
  }

  // ---------------------------------------------------------------------------
  // ContactForm

  /** The `status` string: '', 'sending', 'success', 'error'. */
  datatype Status = Idle | Sending | Success | Failure

  datatype ResumeFile = ResumeFile(fileName: string)

  /** The multipart body handleSubmit posts; `resume` is appended only when
      a file is selected. */
  datatype FormPayload = FormPayload(
    name: string,
    contact: string,
    linkedin: string,
    naukri: string,
    resume: Option<ResumeFile>)

  class ContactForm {
    var name: string
    var contact: string
    var linkedin: string
    var naukri: string
    var resume: Option<ResumeFile>
    var status: Status

    /** What the guards keep true: the name field holds letters and
        whitespace only, the contact field at most ten digits. */
    ghost predicate Valid()
      reads this
    {
      NameInputOk(name) && ContactInputOk(contact)
    }

    constructor ()
      ensures Valid()
      ensures name == "" && contact == "" && linkedin == "" && naukri == ""
      ensures resume.None? && status == Idle
    {
      name, contact, linkedin, naukri := "", "", "", "";
      resume := None;
      status := Idle;
    }

    /** onChange of the name input. */
    method ChangeName(val: string)
      requires Valid()
      modifies this
      ensures Valid()
      ensures name == (if NameInputOk(val) then val else old(name))
      ensures contact == old(contact) && linkedin == old(linkedin) && naukri == old(naukri)
      ensures resume == old(resume) && status == old(status)
    {
      if NameInputOk(val) {
        name := val;
      }
    }

    /** onChange of the contact input. */
    method ChangeContact(val: string)
      requires Valid()
      modifies this
      ensures Valid()
      ensures contact == (if ContactInputOk(val) then val else old(contact))
      ensures name == old(name) && linkedin == old(linkedin) && naukri == old(naukri)
      ensures resume == old(resume) && status == old(status)
    {
      if ContactInputOk(val) {
        contact := val;
      }
    }

    /** onChange of the LinkedIn input: any value is taken. */
    method ChangeLinkedin(val: string)
      requires Valid()
      modifies this
      ensures Valid()
      ensures linkedin == val
      ensures name == old(name) && contact == old(contact) && naukri == old(naukri)
      ensures resume == old(resume) && status == old(status)
    {
      linkedin := val;
    }

    /** onChange of the Naukri input: any value is taken. */
    method ChangeNaukri(val: string)
      requires Valid()
      modifies this
      ensures Valid()
      ensures naukri == val
      ensures name == old(name) && contact == old(contact) && linkedin == old(linkedin)
      ensures resume == old(resume) && status == old(status)
    {
      naukri := val;
    }

    /** onChange of the file input: `e.target.files[0]`, None when no file. */
    method ChooseResume(file: Option<ResumeFile>)
      requires Valid()
      modifies this
      ensures Valid()
      ensures resume == file
      ensures name == old(name) && contact == old(contact) && linkedin == old(linkedin) && naukri == old(naukri)
      ensures status == old(status)
    {
      resume := file;
    }

    /** The success dialog's Dismiss button and backdrop. */
    method Dismiss()
      requires Valid()
      modifies this
      ensures Valid()
      ensures status == Idle
      ensures name == old(name) && contact == old(contact) && linkedin == old(linkedin) && naukri == old(naukri)
      ensures resume == old(resume)
    {
      status := Idle;
    }

    /** The submit button up to the request. The browser refuses to submit
        while a `required` field (name, contact) is empty, and the button is
        disabled while a request is in flight; then nothing happens and the
        result is None. Otherwise handleSubmit sets status to 'sending' and
        the payload carries the four fields and, if selected, the file. */
    method Submit() returns (payload: Option<FormPayload>)
      requires Valid()
      modifies this
      ensures Valid()
      ensures payload.None? <==> name == "" || contact == "" || old(status) == Sending
      ensures payload.None? ==> status == old(status)
      ensures payload.Some? ==> status == Sending && payload.value == FormPayload(name, contact, linkedin, naukri, resume)
      // a payload that leaves carries a non-empty name and contact that pass the guards
      ensures payload.Some? ==> payload.value.name != "" && payload.value.contact != ""
      ensures payload.Some? ==> NameInputOk(payload.value.name) && ContactInputOk(payload.value.contact)
      ensures name == old(name) && contact == old(contact) && linkedin == old(linkedin) && naukri == old(naukri)
      ensures resume == old(resume)
    {
      if name == "" || contact == "" || status == Sending {
        return None;
      }
      status := Sending;
      payload := Some(FormPayload(name, contact, linkedin, naukri, resume));
    }

    /** handleSubmit after the request settles; `posted` is whether it succeeded. */
    method SubmitSettled(posted: bool)
      requires Valid() && status == Sending
      modifies this
      ensures Valid()
      ensures posted ==> status == Success && name == "" && contact == "" && linkedin == "" && naukri == "" && resume.None?
      ensures !posted ==> status == Failure
      ensures !posted ==> name == old(name) && contact == old(contact) && linkedin == old(linkedin) &&
                          naukri == old(naukri) && resume == old(resume)
    {
      if posted {
        status := Success;
        name, contact, linkedin, naukri := "", "", "", "";
        resume := None;
      } else {
        status := Failure;
      }
    }
  }

  // ---------------------------------------------------------------------------
  // ProblemAccordion: one open index, -1 for none

  const ProblemCount := 4

  /** `setOpenIndex(openIndex === i ? -1 : i)` */
  function ToggleOpen(openIndex: int, i: nat): (r: int)
    // the clicked item is open afterwards exactly when it was closed before
    ensures r == i <==> openIndex != i
    // and no other item is open
    ensures r != i ==> r == -1
  {
    if openIndex == i then -1 else i
  }

  /** Clicking the same item twice reopens it if it was open, and otherwise
      leaves every item closed. */
  lemma ToggleOpenTwice(openIndex: int, i: nat)
    ensures ToggleOpen(ToggleOpen(openIndex, i), i) == if openIndex == i then i else -1
  {
  }

  class ProblemAccordion {
    var openIndex: int

    ghost predicate Valid()
      reads this
    {
      -1 <= openIndex < ProblemCount
    }

    constructor ()
      ensures Valid() && openIndex == 0
    {
      openIndex := 0;
    }

    predicate IsOpen(i: nat)
      reads this
    {
      openIndex == i
    }

    method Click(i: nat)
      requires Valid() && i < ProblemCount
      modifies this
      ensures Valid()
      ensures openIndex == ToggleOpen(old(openIndex), i)
      ensures IsOpen(i) == !old(IsOpen(i))
      ensures forall j: nat :: j != i ==> !IsOpen(j)
    {
      openIndex := ToggleOpen(openIndex, i);
    }
  }

  // ---------------------------------------------------------------------------
  // AccordionItem: one open flag per item

  class AccordionItem {
    var open: bool

    constructor ()
      ensures !open
    {
      open := false;
    }

    method Click()
      modifies this
      ensures open == !old(open)
    {
      open := !open;
    }
  }

  /** Two clicks on an item leave it as it was. */
  method ClickTwice(item: AccordionItem)
    modifies item
    ensures item.open == old(item.open)
  {
    item.Click();
    item.Click();
  }
}
