/**
 * The text panel (ExtractedTextDisplay.jsx): the recognised text with an edit
 * buffer, and the summary and voice-summary controls, which appear according to
 * the text, the summary, the voice URL and the busy flags passed in by the page.
 */
module ExtractedTextDisplay {

  /** The summary card: `summary || isGeneratingSummary`. */
  predicate ShowsSummaryCard(summary: string, isGeneratingSummary: bool)
  {
    summary != "" || isGeneratingSummary
  }

  /** The Generate Voice button: `summary && !isGeneratingVoice && !voiceSummaryUrl`. */
  predicate ShowsGenerateVoice(summary: string, isGeneratingVoice: bool, voiceSummaryUrl: string)
  {
    summary != "" && !isGeneratingVoice && voiceSummaryUrl == ""
  }

  /** The Generate Summary button: `text && !summary && !isGeneratingSummary`. */
  predicate ShowsGenerateSummary(text: string, summary: string, isGeneratingSummary: bool)
  {
    text != "" && summary == "" && !isGeneratingSummary
  }

  /** With text to show, the panel offers exactly one of the summary card and the Generate Summary button. */
  lemma SummaryCardOrButton(text: string, summary: string, isGeneratingSummary: bool)
    ensures !(ShowsSummaryCard(summary, isGeneratingSummary) && ShowsGenerateSummary(text, summary, isGeneratingSummary))
    ensures text != "" ==>
              ShowsSummaryCard(summary, isGeneratingSummary) != ShowsGenerateSummary(text, summary, isGeneratingSummary)
  {
  }

  /** The Generate Voice button sits inside the summary card, and only where the page's voice handler will act. */
  lemma VoiceButtonInsideCard(summary: string, isGeneratingSummary: bool, isGeneratingVoice: bool, voiceSummaryUrl: string)
    requires ShowsGenerateVoice(summary, isGeneratingVoice, voiceSummaryUrl)
    ensures ShowsSummaryCard(summary, isGeneratingSummary)
    ensures summary != ""
  {
  }

  /** The edit buffer. `text` is the prop the panel shows; the buffer starts as `text`. */
  class TextEditor {
    var isEditing: bool
    var editedText: string

    constructor (text: string)
      ensures !isEditing && editedText == text
    {
      isEditing, editedText := false, text;
    }

    /** The text area's `onChange`. */
    method Edit(value: string)
      modifies this
      ensures editedText == value && isEditing == old(isEditing)
    {
      editedText := value;
    }

    /** `handleSave`: hand the buffer to `onTextUpdate` once and leave edit mode. */
    method HandleSave() returns (update: string)
      modifies this
      ensures update == old(editedText)
      ensures !isEditing && editedText == old(editedText)
    {
      update := editedText;
      isEditing := false;
    }

    /** `handleCancel`: put the shown text back in the buffer and leave edit mode, without updating. */
    method HandleCancel(text: string)
      modifies this
      ensures !isEditing && editedText == text
    {
      editedText := text;
      isEditing := false;
    }

    /** The edit/close button: cancel while editing, otherwise enter edit mode with the buffer as it is. */
    method Toggle(text: string)
      modifies this
      ensures old(isEditing) ==> !isEditing && editedText == text
      ensures !old(isEditing) ==> isEditing && editedText == old(editedText)
    {
      if isEditing {
        HandleCancel(text);
      } else {
        isEditing := true;
      }
    }
  }
}
