/** The session state of the Streamlit page in app.py: the upload history, the
    selected history item, the chat log, the loaded table and the history
    slider. Each handler that changes `st.session_state` is one method of
    `Session`; rendering is not modelled. */
module App {
  import opened Results
  import opened Text
  import opened ExcelProcessor
  import opened Visualization
  import opened ChatGptUtils

  // ---------------------------------------------------------------------------
  // Upload validation

  /** `validate_excel_file`: `file` is the uploaded file's name, or `None` when
      nothing was uploaded. */
  function ValidateExcelFile(file: Option<string>): (ok: bool)
    ensures ok <==> file.Some? && (EndsWith(file.value, ".xlsx") || EndsWith(file.value, ".xls"))
  {
    match file
    case None => false
    case Some(name) => EndsWith(name, ".xlsx") || EndsWith(name, ".xls")
  }

  /** The extension test is exact and case-sensitive: both Excel extensions pass,
      an upper-case extension or another format does not. */
  lemma ValidateExcelFileExamples()
    ensures ValidateExcelFile(Some("hesabat.xlsx"))
    ensures ValidateExcelFile(Some("hesabat.xls"))
    ensures !ValidateExcelFile(Some("hesabat.XLSX"))
    ensures !ValidateExcelFile(Some("hesabat.csv"))
    ensures !ValidateExcelFile(None)
  {
    assert "hesabat.xlsx"[|"hesabat.xlsx"| - 5..] == ".xlsx";
    assert "hesabat.xls"[|"hesabat.xls"| - 4..] == ".xls";
    assert "hesabat.XLSX"[|"hesabat.XLSX"| - 5..][1] == 'X';
    assert "hesabat.XLSX"[|"hesabat.XLSX"| - 4..][1] == 'L';
    assert "hesabat.csv"[|"hesabat.csv"| - 4..][1] == 'c';
  }

  // ---------------------------------------------------------------------------
  // History paging

  const ItemsPerPage: nat := 3

  /** The number of slider pages for `n` history items, `(n + 3 - 1) // 3`. */
  function TotalPages(n: nat): (pages: nat)
    ensures n == 0 <==> pages == 0
    ensures n >= 1 ==> ItemsPerPage * (pages - 1) < n <= ItemsPerPage * pages
  {
    (n + ItemsPerPage - 1) / ItemsPerPage
  }

  function Max(a: int, b: int): int {
    if a >= b then a else b
  }

  function Min(a: int, b: int): int {
    if a <= b then a else b
  }

  /** `max(0, min(position, pages - 1))`: the nearest page that exists. */
  function Clamp(position: int, pages: nat): (r: int)
    requires pages >= 1
    ensures 0 <= r <= pages - 1
    ensures 0 <= position <= pages - 1 ==> r == position
    ensures position < 0 ==> r == 0
    ensures position > pages - 1 ==> r == pages - 1
  {
    Max(0, Min(position, pages - 1))
  }

  // ---------------------------------------------------------------------------
  // Session state

  datatype Role = User | Assistant

  /** One chat entry, `{"role": ..., "content": ...}`. */
  datatype Message = Message(role: Role, content: string)

  /** A Python list of chat entries. It is an object because the session's chat
      list and a history item's chat list can be the same list. */
  class ChatLog {
    var messages: seq<Message>

    constructor()
      ensures messages == []
    {
      messages := [];
    }
  }

  /** One upload-history entry: `{'file_name', 'timestamp', 'chat_history'}`. */
  class HistoryItem {
    const fileName: string
    const timestamp: int
    const chat: ChatLog

    constructor(fileName: string, timestamp: int)
      ensures this.fileName == fileName && this.timestamp == timestamp
      ensures fresh(chat) && chat.messages == []
    {
      this.fileName := fileName;
      this.timestamp := timestamp;
      chat := new ChatLog();
    }
  }

  const InvalidFileMessage: string := "Zəhmət olmasa yalnız Excel fayllarını (.xlsx və ya .xls) yükləyin."
  const ErrorMessagePrefix: string := "Xəta baş verdi: "

  /** `st.session_state` as the page uses it. */
  class Session {
    var chatHistory: ChatLog
    var currentData: Option<Table>
    var showChat: bool
    var uploadHistory: seq<HistoryItem>
    var selectedHistory: HistoryItem?
    var sliderPosition: int
    var sidebarExpanded: bool

    /** The chat view is shown only with a loaded, cleaned table; the selected
        item is one of the history; the slider never points before the first page. */
    predicate Valid()
      reads this
    {
      && (showChat ==> currentData.Some?)
      && (currentData.Some? ==> WellFormed(currentData.value) && Clean(currentData.value))
      && (selectedHistory == null || selectedHistory in uploadHistory)
      && sliderPosition >= 0
    }

    /** The session defaults set on the first run of the page. */
    constructor()
      ensures Valid()
      ensures fresh(chatHistory) && chatHistory.messages == []
      ensures currentData == None && !showChat && uploadHistory == []
      ensures selectedHistory == null && sliderPosition == 0 && !sidebarExpanded
    {
      chatHistory := new ChatLog();
      currentData := None;
      showChat := false;
      uploadHistory := [];
      selectedHistory := null;
      sliderPosition := 0;
      sidebarExpanded := false;
    }

    /** `add_to_history`: appends one new item with an empty chat list and selects it. */
    method AddToHistory(fileName: string, timestamp: int)
      requires Valid()
      modifies this
      ensures Valid()
      ensures |uploadHistory| == |old(uploadHistory)| + 1
      ensures uploadHistory[..|old(uploadHistory)|] == old(uploadHistory)
      ensures var item := uploadHistory[|uploadHistory| - 1];
        && fresh(item) && fresh(item.chat)
        && item.fileName == fileName && item.timestamp == timestamp && item.chat.messages == []
        && selectedHistory == item
      ensures forall it :: it in old(uploadHistory) ==> it.chat.messages == old(it.chat.messages)
      ensures chatHistory == old(chatHistory) && currentData == old(currentData) && showChat == old(showChat)
      ensures sliderPosition == old(sliderPosition) && sidebarExpanded == old(sidebarExpanded)
    {
      var historyItem := new HistoryItem(fileName, timestamp);
      uploadHistory := uploadHistory + [historyItem];
      selectedHistory := historyItem;
    }

    /** `load_history_item`: selects the item and makes its chat list the
        session's chat list (the same list, not a copy). */
    method LoadHistoryItem(item: HistoryItem)
      requires Valid() && item in uploadHistory
      modifies this
      ensures Valid()
      ensures selectedHistory == item && chatHistory == item.chat
      ensures uploadHistory == old(uploadHistory) && currentData == old(currentData) && showChat == old(showChat)
      ensures sliderPosition == old(sliderPosition) && sidebarExpanded == old(sidebarExpanded)
    {
      selectedHistory := item;
      chatHistory := item.chat;
    }

    /** The position the slider shows when it is drawn; it is not drawn without
        history. */
    function ShownPosition(): int
      reads this
    {
      if uploadHistory == [] then sliderPosition
      else Clamp(sliderPosition, TotalPages(|uploadHistory|))
    }

    /** Drawing `create_history_slider`: with history, the position is clamped to
        an existing page; without, nothing happens. */
    method DrawHistorySlider()
      requires Valid()
      modifies this
      ensures Valid()
      ensures sliderPosition == old(ShownPosition())
      ensures uploadHistory != [] ==> 0 <= sliderPosition <= TotalPages(|uploadHistory|) - 1
      ensures uploadHistory == [] ==> sliderPosition == old(sliderPosition)
      ensures uploadHistory == old(uploadHistory) && selectedHistory == old(selectedHistory)
      ensures chatHistory == old(chatHistory) && currentData == old(currentData) && showChat == old(showChat)
      ensures sidebarExpanded == old(sidebarExpanded)
    {
      if uploadHistory == [] {
        return;
      }
      var totalItems := |uploadHistory|;
      var totalPages := (totalItems + ItemsPerPage - 1) / ItemsPerPage;
      sliderPosition := Max(0, Min(sliderPosition, totalPages - 1));
    }

    /** The "←" button: drawn after clamping, disabled on the first page,
        otherwise one page back. */
    method PreviousPage()
      requires Valid()
      modifies this
      ensures Valid()
      ensures uploadHistory == [] ==> sliderPosition == old(sliderPosition)
      ensures uploadHistory != [] ==>
        var p := old(ShownPosition());
        sliderPosition == (if p == 0 then 0 else p - 1)
      ensures uploadHistory != [] ==> 0 <= sliderPosition <= TotalPages(|uploadHistory|) - 1
      ensures uploadHistory == old(uploadHistory) && selectedHistory == old(selectedHistory)
      ensures chatHistory == old(chatHistory) && currentData == old(currentData) && showChat == old(showChat)
      ensures sidebarExpanded == old(sidebarExpanded)
    {
      DrawHistorySlider();
      if uploadHistory == [] {
        return;
      }
      var disabled := sliderPosition == 0;
      if !disabled {
        sliderPosition := Max(0, sliderPosition - 1);
      }
    }

    /** The "→" button: drawn after clamping, disabled on the last page,
        otherwise one page forward. */
    method NextPage()
      requires Valid()
      modifies this
      ensures Valid()
      ensures uploadHistory == [] ==> sliderPosition == old(sliderPosition)
      ensures uploadHistory != [] ==>
        var p, last := old(ShownPosition()), TotalPages(|uploadHistory|) - 1;
        sliderPosition == (if p >= last then p else p + 1)
      ensures uploadHistory != [] ==> 0 <= sliderPosition <= TotalPages(|uploadHistory|) - 1
      ensures uploadHistory == old(uploadHistory) && selectedHistory == old(selectedHistory)
      ensures chatHistory == old(chatHistory) && currentData == old(currentData) && showChat == old(showChat)
      ensures sidebarExpanded == old(sidebarExpanded)
    {
      DrawHistorySlider();
      if uploadHistory == [] {
        return;
      }
      var totalPages := (|uploadHistory| + ItemsPerPage - 1) / ItemsPerPage;
      var disabled := sliderPosition >= totalPages - 1;
      if !disabled {
        sliderPosition := Min(totalPages - 1, sliderPosition + 1);
      }
    }

    /** `toggle_sidebar`. */
    method ToggleSidebar()
      requires Valid()
      modifies this
      ensures Valid()
      ensures sidebarExpanded == !old(sidebarExpanded)
      ensures uploadHistory == old(uploadHistory) && selectedHistory == old(selectedHistory)
      ensures chatHistory == old(chatHistory) && currentData == old(currentData) && showChat == old(showChat)
      ensures sliderPosition == old(sliderPosition)
    {
      sidebarExpanded := !sidebarExpanded;
    }

    /** The clear-history button: forgets the history, the selection, the chat
        and the table, and goes back to the upload view. The lists of the
        forgotten items are not touched. */
    method ClearHistory()
      requires Valid()
      modifies this
      ensures Valid()
      ensures uploadHistory == [] && selectedHistory == null
      ensures fresh(chatHistory) && chatHistory.messages == []
      ensures currentData == None && !showChat
      ensures sliderPosition == old(sliderPosition) && sidebarExpanded == old(sidebarExpanded)
      ensures forall it :: it in old(uploadHistory) ==> it.chat.messages == old(it.chat.messages)
    {
      uploadHistory := [];
      selectedHistory := null;
      chatHistory := new ChatLog();
      currentData := None;
      showChat := false;
    }

    /** The "new file" button: back to the upload view with an empty chat; the
        history and the selection stay. */
    method NewFile()
      requires Valid()
      modifies this
      ensures Valid()
      ensures !showChat && currentData == None
      ensures fresh(chatHistory) && chatHistory.messages == []
      ensures uploadHistory == old(uploadHistory) && selectedHistory == old(selectedHistory)
      ensures sliderPosition == old(sliderPosition) && sidebarExpanded == old(sidebarExpanded)
      ensures forall it :: it in old(uploadHistory) ==> it.chat.messages == old(it.chat.messages)
    {
      showChat := false;
      chatHistory := new ChatLog();
      currentData := None;
    }

    /** The upload view receiving a file named `fileName` at `timestamp`, where
        `parsed` is what the spreadsheet reader made of it. A name without an
        Excel extension is refused with a fixed message; a reader failure is
        reported with the processing error; otherwise the cleaned table is
        loaded, the chat view opens and the file joins the history. `error` is
        the message shown, if any; a refused or failed upload changes nothing. */
    method UploadFile(fileName: string, parsed: Result<RawTable>, timestamp: int) returns (error: Option<string>)
      requires Valid() && !showChat
      requires parsed.Success? ==> RawWellFormed(parsed.value)
      modifies this
      ensures Valid()
      ensures !ValidateExcelFile(Some(fileName)) ==> error == Some(InvalidFileMessage)
      ensures ValidateExcelFile(Some(fileName)) && parsed.Failure? ==>
                error == Some(ErrorMessagePrefix + ErrorPrefix + parsed.error)
      ensures error.Some? ==>
        && uploadHistory == old(uploadHistory) && selectedHistory == old(selectedHistory)
        && currentData == old(currentData) && showChat == old(showChat)
      ensures error.None? <==> ValidateExcelFile(Some(fileName)) && parsed.Success?
      ensures error.None? ==>
        && showChat
        && currentData == Some(ProcessExcelFile(parsed).value)
        && |uploadHistory| == |old(uploadHistory)| + 1
        && uploadHistory[..|old(uploadHistory)|] == old(uploadHistory)
        && var item := uploadHistory[|uploadHistory| - 1];
           && fresh(item) && fresh(item.chat)
           && item.fileName == fileName && item.timestamp == timestamp
           && item.chat.messages == [] && selectedHistory == item
      ensures chatHistory == old(chatHistory) && sliderPosition == old(sliderPosition)
      ensures sidebarExpanded == old(sidebarExpanded)
    {
      if !ValidateExcelFile(Some(fileName)) {
        return Some(InvalidFileMessage);
      }
      var df := ProcessExcelFile(parsed);
      if df.Failure? {
        assert ErrorMessagePrefix + df.error == ErrorMessagePrefix + ErrorPrefix + parsed.error;
        return Some(ErrorMessagePrefix + df.error);
      }
      currentData := Some(df.value);
      showChat := true;
      AddToHistory(fileName, timestamp);
      error := None;
    }

    /** The chat input receiving `prompt`, where `reply` is what
        `get_chatgpt_response` returns: the chat service's answer, or its own
        error text when the request fails. An empty prompt does nothing.
        Otherwise the user's entry and then the assistant's entry are appended
        to the current chat list, the assistant's entry being the reply after
        `process_visualization_request`; a chart is built from
        the prompt exactly when that entry mentions "visualization". Every
        history item whose list is the session's list sees the two entries;
        every other list stays as it was. */
    method SubmitPrompt(prompt: string, reply: string) returns (chart: Option<Result<ChartSpec>>)
      requires Valid() && showChat
      modifies chatHistory
      ensures Valid()
      ensures prompt == [] ==> chatHistory.messages == old(chatHistory.messages) && chart == None
      ensures prompt != [] ==>
        var response := ProcessVisualizationRequest(reply).0;
        && chatHistory.messages == old(chatHistory.messages) + [Message(User, prompt), Message(Assistant, response)]
        && (chart.Some? <==> Contains(response, "visualization"))
        && (chart.Some? ==> chart.value == CreateVisualization(currentData.value, prompt))
      ensures prompt != [] && ProcessVisualizationRequest(reply).1 ==> chart.Some?
      ensures forall it :: it in uploadHistory && it.chat != chatHistory ==>
                it.chat.messages == old(it.chat.messages)
    {
      chart := None;
      if prompt == [] {
        return;
      }
      chatHistory.messages := chatHistory.messages + [Message(User, prompt)];
      var response := ProcessVisualizationRequest(reply).0;
      chatHistory.messages := chatHistory.messages + [Message(Assistant, response)];
      MarkedReplyHasMarker(reply);
      if Contains(response, "visualization") {
        chart := Some(CreateVisualization(currentData.value, prompt));
      }
    }
  }

  /** The paging arithmetic: every history item is on exactly one page, page
      `p` holding items `3p`, `3p + 1` and `3p + 2`, and the last page is the one
      holding the last item. */
  lemma PagesCoverItems(n: nat, i: nat)
    requires i < n
    ensures i / ItemsPerPage <= TotalPages(n) - 1
    ensures (n - 1) / ItemsPerPage == TotalPages(n) - 1
  {
  }
}
