/** What the admin forms share: the URL check each form applies to its URL fields, the
    loop that collects one error per offending field, and reading a submitted field. */
module Forms {
  import opened Wrappers
  import opened Seqs

  /** A submitted form: field name to text. A field the form lacks reads as empty, the
      same as an empty field for every check made here. */
  type Form = map<string, string>

  function FormText(form: Form, field: string): string {
    if field in form then form[field] else ""
  }

  /** `|| undefined` / `|| null` on a form field: an empty field is absent. */
  function NonEmpty(s: string): (r: Option<string>)
    ensures r.None? <==> s == ""
    ensures r.Some? ==> r.value == s
  {
    if s == "" then None else Some(s)
  }

  const UrlMessage := "Please enter a valid URL starting with http:// or https://"

  /** `validateUrl`: no URL is acceptable; otherwise it must parse as a URL (`parses`
      stands for the URL parser) and use the http or https scheme. */
  function ValidateUrl(url: Option<string>, parses: string -> bool): bool {
    if url.None? || url.value == "" then true
    else parses(url.value) && (StartsWith(url.value, "http://") || StartsWith(url.value, "https://"))
  }

  /** Absent and empty input are accepted whatever the parser says. */
  lemma ValidateUrlAcceptsEmpty(parses: string -> bool)
    ensures ValidateUrl(None, parses) && ValidateUrl(Some(""), parses)
  {
  }

  /** A non-empty URL is accepted exactly when it parses and starts with `http://` or
      `https://`: a relative path or another scheme is refused even when it parses. */
  lemma ValidateUrlRequiresWebScheme(url: string, parses: string -> bool)
    requires url != ""
    ensures ValidateUrl(Some(url), parses) <==>
      parses(url) && (StartsWith(url, "http://") || StartsWith(url, "https://"))
    ensures !ValidateUrl(Some("/poster.jpg"), parses)
    ensures !ValidateUrl(Some("ftp://example.com/a.mp4"), parses)
  {
    assert "/poster.jpg"[..7][0] != "http://"[0];
    assert "/poster.jpg"[..8][0] != "https://"[0];
    assert "ftp://example.com/a.mp4"[..7][0] != "http://"[0];
    assert "ftp://example.com/a.mp4"[..8][0] != "https://"[0];
  }

  /** The fields whose text is non-empty and fails the URL check. */
  function InvalidFields(form: Form, fields: seq<string>, parses: string -> bool): set<string> {
    set f | f in fields && FormText(form, f) != "" && !ValidateUrl(Some(FormText(form, f)), parses)
  }

  /** The validation loop of the admin forms: one error per field whose non-empty text
      fails the URL check, all with the same message. */
  method CollectUrlErrors(form: Form, fields: seq<string>, parses: string -> bool) returns (errors: map<string, string>)
    ensures errors.Keys == InvalidFields(form, fields, parses)
    ensures forall f :: f in errors ==> errors[f] == UrlMessage
  {
    errors := map[];
    var i := 0;
    while i < |fields|
      invariant 0 <= i <= |fields|
      invariant errors.Keys == InvalidFields(form, fields[..i], parses)
      invariant forall f :: f in errors ==> errors[f] == UrlMessage
    {
      var url := FormText(form, fields[i]);
      if url != "" && !ValidateUrl(Some(url), parses) {
        errors := errors[fields[i] := UrlMessage];
      }
      assert fields[..i + 1] == fields[..i] + [fields[i]];
      i := i + 1;
    }
    assert fields[..i] == fields;
  }

  /** No error is reported exactly when every listed field is empty or a valid URL. */
  lemma NoErrorsIffAllValid(form: Form, fields: seq<string>, parses: string -> bool)
    ensures InvalidFields(form, fields, parses) == {} <==>
      forall f :: f in fields ==> ValidateUrl(Some(FormText(form, f)), parses)
  {
    var bad := InvalidFields(form, fields, parses);
    if bad != {} {
      var f :| f in bad;
      assert f in fields && !ValidateUrl(Some(FormText(form, f)), parses);
    } else {
      forall f | f in fields ensures ValidateUrl(Some(FormText(form, f)), parses) {
        assert f !in bad;
      }
    }
  }
}
