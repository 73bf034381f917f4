/** The store-map upload page (src/pages/UploadMap.jsx): loading the saved
    embed code, the iframe check, the save button's enablement, and the save
    itself — both as written, where the check is never consulted, and with
    the check applied. */
module UploadMap {
  import opened Common

  /** Why an embed code is refused. */
  datatype MapError = MissingCode | MalformedCode

  /** The message shown for each refusal. */
  function Message(e: MapError): string {
    match e
    case MissingCode => "Please enter an iframe code"
    case MalformedCode => "Please enter a valid iframe code"
  }

  /** The outcome of `validateIframeCode`. */
  datatype Validation = Valid | Invalid(error: MapError)

  /** An embed code carries both the opening and the closing iframe tag. */
  predicate HasIframeTags(code: string) {
    Contains(code, "<iframe") && Contains(code, "</iframe>")
  }

  /** `validateIframeCode`: blank-after-trim is missing, a code without both
      tags is malformed, anything else is valid. */
  function ValidateIframeCode(code: string): (r: Validation)
    ensures r == Invalid(MissingCode) <==> IsBlank(code)
    ensures r == Invalid(MalformedCode) <==> !IsBlank(code) && !HasIframeTags(code)
    ensures r == Valid <==> !IsBlank(code) && HasIframeTags(code)
  {
    TrimEmptyIffBlank(code);
    if Trim(code) == "" then Invalid(MissingCode)
    else if !HasIframeTags(code) then Invalid(MalformedCode)
    else Valid
  }

  /** Whether the last save succeeded, and with which text. */
  datatype SaveMessage = NoMessage | Saved | SaveFailed(text: string)

  /** The page state. */
  datatype MapPage = MapPage(iframeCode: string, editorLink: string, error: string,
                             saving: bool, message: SaveMessage)

  const InitialMapPage := MapPage("", "", "", false, NoMessage)

  /** The fetch on mount: each saved field replaces the form's only when it
      is present and non-empty. */
  function Loaded(pg: MapPage, savedCode: Option<string>, savedLink: Option<string>): (r: MapPage)
    ensures Truthy(savedCode) ==> r.iframeCode == savedCode.value
    ensures !Truthy(savedCode) ==> r.iframeCode == pg.iframeCode
    ensures Truthy(savedLink) ==> r.editorLink == savedLink.value
    ensures !Truthy(savedLink) ==> r.editorLink == pg.editorLink
    ensures r.error == pg.error && r.saving == pg.saving && r.message == pg.message
  {
    pg.(iframeCode := if Truthy(savedCode) then savedCode.value else pg.iframeCode,
        editorLink := if Truthy(savedLink) then savedLink.value else pg.editorLink)
  }

  /** The Save button is disabled while the code is blank or a save runs. */
  function SaveDisabled(code: string, saving: bool): (d: bool)
    ensures d <==> IsBlank(code) || saving
  {
    TrimEmptyIffBlank(code);
    Trim(code) == "" || saving
  }

  /** A blank code never reaches validation's malformed check: the button is
      already disabled for it, with the message validation would show. */
  lemma DisabledExactlyOnMissingOrBusy(code: string, saving: bool)
    ensures SaveDisabled(code, saving) <==> saving || ValidateIframeCode(code) == Invalid(MissingCode)
  {
  }

  /** What is posted. */
  datatype MapRequest = MapRequest(iframeCode: string, editorLink: string)

  /** The server's answer to the post. */
  datatype SaveReply = SaveOk | SaveError(message: Option<string>)

  /** The page after the post has been answered. */
  function Answered(pg: MapPage, reply: SaveReply): (r: MapPage)
    ensures !r.saving
    ensures reply.SaveOk? <==> r.message == Saved
    ensures r.iframeCode == pg.iframeCode && r.editorLink == pg.editorLink && r.error == pg.error
  {
    pg.(saving := false,
        message := match reply
                   case SaveOk => Saved
                   case SaveError(m) => SaveFailed(if Truthy(m) then m.value else "Error saving map"))
  }

  /** The Save click as written: whenever the button is enabled the code is
      posted, without calling `validateIframeCode`. */
  function ClickSaveAsWritten(pg: MapPage, reply: SaveReply): (r: (MapPage, Option<MapRequest>))
    ensures r.1.Some? <==> !SaveDisabled(pg.iframeCode, pg.saving)
    ensures r.1.Some? ==> r.1.value == MapRequest(pg.iframeCode, pg.editorLink)
    ensures r.1.None? ==> r.0 == pg
  {
    if SaveDisabled(pg.iframeCode, pg.saving) then (pg, None)
    else (Answered(pg, reply), Some(MapRequest(pg.iframeCode, pg.editorLink)))
  }

  /** As written, a code without any iframe tag is posted. */
  lemma SaveAsWrittenPostsMalformedCode()
    ensures ValidateIframeCode("map") == Invalid(MalformedCode)
    ensures ClickSaveAsWritten(InitialMapPage.(iframeCode := "map"), SaveOk).1 == Some(MapRequest("map", ""))
  {
    assert !IsBlank("map") by { assert !IsJsWhitespace("map"[0]); }
    assert !Contains("map", "<iframe");
  }

  /** The Save click with the check applied: a refused code shows its
      message and nothing is posted. */
  function ClickSave(pg: MapPage, reply: SaveReply): (r: (MapPage, Option<MapRequest>))
    ensures r.1.Some? <==> !pg.saving && ValidateIframeCode(pg.iframeCode) == Valid
    ensures r.1.Some? ==> r.1.value == MapRequest(pg.iframeCode, pg.editorLink)
    ensures !pg.saving && ValidateIframeCode(pg.iframeCode) == Invalid(MalformedCode) ==>
              r.0 == pg.(error := Message(MalformedCode))
  {
    if SaveDisabled(pg.iframeCode, pg.saving) then (pg, None)
    else
      match ValidateIframeCode(pg.iframeCode)
      case Invalid(e) => (pg.(error := Message(e)), None)
      case Valid => (Answered(pg, reply), Some(MapRequest(pg.iframeCode, pg.editorLink)))
  }

  /** Every code the corrected save posts carries both iframe tags, and it
      posts exactly when the as-written save does and the code has them. */
  lemma SavePostsOnlyIframeCode(pg: MapPage, reply: SaveReply)
    ensures ClickSave(pg, reply).1.Some? ==> HasIframeTags(ClickSave(pg, reply).1.value.iframeCode)
    ensures ClickSave(pg, reply).1.Some? <==>
              ClickSaveAsWritten(pg, reply).1.Some? && HasIframeTags(pg.iframeCode)
  {
  }
}
