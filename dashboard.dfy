/**
 * The administrator dashboard component (src/pages/admin/AdminDashboard.js)
 * as one object whose fields are the component's state and whose methods
 * are its event handlers, run one at a time to completion.
 *
 * Every call to the remote service is appended to `sent`, and its outcome
 * is a parameter of the handler, so that "no call was made" and "the call
 * carried exactly this" can be stated. The browser's session flag is the
 * field `storedAuth`; the answer to a confirmation dialog is a parameter.
 */
module Dashboard {
  import opened Outcomes
  import opened Text
  import opened YouTube
  import opened ContentTree
  import opened Drafts
  import opened Collections
  import opened Faq
  import opened Validation

  /** A call into the remote service, with what it carried. */
  datatype Request =
    | CmsLogin(username: string, password: string)
    | CmsLogout
    | CmsUpdateContent(section: string, data: Option<Value>)
    | CmsUpdateTheme(theme: Sections)
    | RefreshContent
    | RefreshTheme
    | CmsGetNews
    | CmsCreateNews(draft: ArticleDraft)
    | CmsUpdateNews(newsId: int, article: Article)
    | CmsDeleteNews(newsId: int)
    | CmsUploadNewsImage(file: ImageFile)
    | FetchQuestions
    | FetchAnswer(questionId: int, answer: string, answeredBy: string)
    | FetchDeleteQuestion(questionId: int)
    | FetchVideos
    | FetchCreateVideo(form: VideoForm)
    | FetchUpdateVideo(videoId: int, video: Video)
    | FetchDeleteVideo(videoId: int)
    | FetchToggleVideo(videoId: int)

  datatype Tone = NoTone | Success | Error

  /** The banner at the top of the dashboard. */
  datatype Notice = Notice(text: string, tone: Tone)

  const NoNotice := Notice("", NoTone)

  /** `message || fallback`: a reply's own message when it has one. */
  function OrElse(message: string, fallback: string): string {
    if message != "" then message else fallback
  }

  /** The banner a handler shows for a reply that was not a success. */
  function Refusal<T>(reply: Response<T>, fallback: string, onThrow: string): (n: Notice)
    requires !reply.Accepted?
    ensures n.tone == Error
    ensures reply.Declined? && reply.reason != "" ==> n.text == reply.reason
    ensures reply.Declined? && reply.reason == "" ==> n.text == fallback
    ensures reply.Thrown? ==> n.text == onThrow
  {
    if reply.Declined? then Notice(OrElse(reply.reason, fallback), Error) else Notice(onThrow, Error)
  }

  /** A list or snapshot after a reload: the reply's payload on success, the old value otherwise. */
  function Latest<T>(current: T, reply: Response<T>): (r: T)
    ensures reply.Accepted? ==> r == reply.payload
    ensures !reply.Accepted? ==> r == current
  {
    if reply.Accepted? then reply.payload else current
  }

  /** `question.answer || ''`. */
  function AnswerOrBlank(q: Question): string {
    if q.answer.Some? then q.answer.value else ""
  }

  /** `question.answered_by || 'Admin'`. */
  function AnsweredByOrAdmin(q: Question): string {
    if q.answeredBy.Some? && q.answeredBy.value != "" then q.answeredBy.value else "Admin"
  }

  class AdminDashboard {
    var activeSection: string
    var isAuthenticated: bool
    /** The browser session's `isAuthenticated` entry, None when absent. */
    var storedAuth: Option<string>
    var message: Notice
    /** The synchronised content and theme, as the two contexts hold them. */
    var content: Sections
    var theme: Sections
    /** The drafts: a private copy per section being edited, and of the theme. */
    var editData: Sections
    var editTheme: Option<Sections>
    var newsList: seq<Article>
    var newArticle: ArticleDraft
    var questionsList: seq<Question>
    var selectedQuestion: Option<Question>
    var answerText: string
    var answeredBy: string
    var qnaFilter: string
    var videosList: seq<Video>
    var newVideo: VideoForm
    var editingVideo: Option<Video>
    /** Every call made to the remote service, oldest first. */
    var sent: seq<Request>

    /** The dashboard counts as logged in exactly when the session flag says so. */
    ghost predicate Valid()
      reads this
    {
      isAuthenticated == (storedAuth == Some("true"))
    }

    /**
     * Mounting the component: every piece of state at its initial value,
     * then the mount effect restores the login from the session flag.
     */
    constructor (stored: Option<string>, synced: Sections, syncedTheme: Sections)
      ensures Valid()
      ensures isAuthenticated == (stored == Some("true")) && storedAuth == stored
      ensures activeSection == "hero" && message == NoNotice
      ensures content == synced && theme == syncedTheme && editData == map[] && editTheme == None
      ensures newsList == [] && newArticle == BlankArticle
      ensures questionsList == [] && selectedQuestion == None && answerText == "" && answeredBy == "Admin"
      ensures qnaFilter == "all"
      ensures videosList == [] && newVideo == BlankVideoForm && editingVideo == None
      ensures sent == []
    {
      activeSection := "hero";
      storedAuth := stored;
      message := NoNotice;
      content := synced;
      theme := syncedTheme;
      editData := map[];
      editTheme := None;
      newsList := [];
      newArticle := BlankArticle;
      questionsList := [];
      selectedQuestion := None;
      answerText := "";
      answeredBy := "Admin";
      qnaFilter := "all";
      videosList := [];
      newVideo := BlankVideoForm;
      editingVideo := None;
      sent := [];
      isAuthenticated := false;
      if stored == Some("true") {
        isAuthenticated := true;
      }
    }

    /* ---------- session ---------- */

    /**
     * handleLogin: on success the dashboard is logged in, the flag is
     * stored and both snapshots are reloaded; otherwise only the banner
     * changes.
     */
    method HandleLogin(username: string, password: string, reply: Response<()>,
                       contentReply: Response<Sections>, themeReply: Response<Sections>)
      requires Valid()
      modifies this`isAuthenticated, this`storedAuth, this`message, this`content, this`theme, this`sent
      ensures Valid()
      ensures reply.Accepted? ==>
                && isAuthenticated && storedAuth == Some("true")
                && message == Notice("Login successful! \U{1F389}", Success)
                && sent == old(sent) + [CmsLogin(username, password)] + [RefreshContent] + [RefreshTheme]
                && content == Latest(old(content), contentReply)
                && theme == Latest(old(theme), themeReply)
      ensures !reply.Accepted? ==>
                && isAuthenticated == old(isAuthenticated) && storedAuth == old(storedAuth)
                && message == Refusal(reply, "Invalid credentials", "Error connecting to server.")
                && sent == old(sent) + [CmsLogin(username, password)]
                && content == old(content) && theme == old(theme)
    {
      message := NoNotice;
      sent := sent + [CmsLogin(username, password)];
      if reply.Accepted? {
        isAuthenticated := true;
        storedAuth := Some("true");
        message := Notice("Login successful! \U{1F389}", Success);
        var _ := ReloadContent(contentReply);
        var _ := ReloadTheme(themeReply);
      } else {
        message := Refusal(reply, "Invalid credentials", "Error connecting to server.");
      }
    }

    /**
     * handleLogout: the call to the service is awaited outside any `try`,
     * so when it throws the handler stops there and the dashboard stays
     * logged in; otherwise the login and the stored flag are cleared.
     */
    method HandleLogout(reply: Response<()>)
      requires Valid()
      modifies this`isAuthenticated, this`storedAuth, this`message, this`sent
      ensures Valid()
      ensures sent == old(sent) + [CmsLogout]
      ensures reply.Thrown? ==>
                isAuthenticated == old(isAuthenticated) && storedAuth == old(storedAuth) && message == old(message)
      ensures !reply.Thrown? ==>
                !isAuthenticated && storedAuth == None && message == Notice("Logged out successfully", Success)
    {
      sent := sent + [CmsLogout];
      if reply.Thrown? {
        return;
      }
      isAuthenticated := false;
      storedAuth := None;
      message := Notice("Logged out successfully", Success);
    }

    /** refreshContent: the content snapshot is replaced when the service sends one; a thrown error is passed on. */
    method ReloadContent(reply: Response<Sections>) returns (thrown: Option<string>)
      modifies this`content, this`sent
      ensures sent == old(sent) + [RefreshContent]
      ensures content == Latest(old(content), reply)
      ensures thrown == if reply.Thrown? then Some(reply.error) else None
    {
      sent := sent + [RefreshContent];
      thrown := None;
      match reply {
        case Accepted(snapshot) => content := snapshot;
        case Declined(_) =>
        case Thrown(e) => thrown := Some(e);
      }
    }

    /** refreshTheme, likewise for the theme snapshot. */
    method ReloadTheme(reply: Response<Sections>) returns (thrown: Option<string>)
      modifies this`theme, this`sent
      ensures sent == old(sent) + [RefreshTheme]
      ensures theme == Latest(old(theme), reply)
      ensures thrown == if reply.Thrown? then Some(reply.error) else None
    {
      sent := sent + [RefreshTheme];
      thrown := None;
      match reply {
        case Accepted(snapshot) => theme := snapshot;
        case Declined(_) =>
        case Thrown(e) => thrown := Some(e);
      }
    }

    /* ---------- sections, drafts and saving ---------- */

    /** Choosing a section in the sidebar. */
    method SelectSection(key: string)
      modifies this`activeSection
      ensures activeSection == key
    {
      activeSection := key;
    }

    /** `currentContent`: the active section as the editors show it, draft first. */
    function CurrentContent(): (r: Option<Value>)
      reads this
      ensures activeSection in editData && Truthy(editData[activeSection]) ==> r == Some(editData[activeSection])
      ensures !(activeSection in editData && Truthy(editData[activeSection])) ==>
                r == if activeSection in content then Some(content[activeSection]) else None
    {
      DraftOrSynced(editData, content, activeSection)
    }

    /** `currentTheme`: the theme draft when there is one, else the synchronised theme. */
    function CurrentTheme(): (r: Sections)
      reads this
      ensures editTheme.Some? ==> r == editTheme.value
      ensures editTheme.None? ==> r == theme
    {
      ThemeOrDraft(editTheme, theme)
    }

    /**
     * handleInputChange(path, x): the active section's draft (started from
     * a copy of the synchronised section if there is none) gets `x` at the
     * dotted path; when the section or the path does not exist the handler
     * throws and the drafts stay as they were. Nothing else changes: not
     * the synchronised content, not the other drafts.
     */
    method HandleInputChange(path: string, x: Value)
      modifies this`editData
      ensures editData == ApplyEdit(old(editData), content, activeSection, path, x)
    {
      var base := DraftOrSynced(editData, content, activeSection);
      if base.None? {
        return;
      }
      var edited := WritePath(base.value, Split(path, '.'), x);
      if edited.None? {
        return;
      }
      editData := editData[activeSection := edited.value];
    }

    /** A colour picker on the theme editor: the theme draft becomes the current theme with that colour set. */
    method EditThemeColor(key: string, color: string)
      modifies this`editTheme
      ensures editTheme == Some(WithColor(old(CurrentTheme()), key, color))
    {
      editTheme := Some(WithColor(ThemeOrDraft(editTheme, theme), key, color));
    }

    /** The font family selector and the free-text custom font family input. */
    method EditFontFamily(family: string)
      modifies this`editTheme
      ensures editTheme == Some(WithText(old(CurrentTheme()), "fontFamily", family))
    {
      editTheme := Some(WithText(ThemeOrDraft(editTheme, theme), "fontFamily", family));
    }

    /** The font weight selector. */
    method EditFontWeight(weight: string)
      modifies this`editTheme
      ensures editTheme == Some(WithText(old(CurrentTheme()), "fontWeight", weight))
    {
      editTheme := Some(WithText(ThemeOrDraft(editTheme, theme), "fontWeight", weight));
    }

    /**
     * handleSave: the draft-or-synchronised value of the active section (or
     * of the theme) is sent; on success the matching snapshot is reloaded,
     * and once that too has not thrown, every draft is dropped. A refusal
     * or an error keeps the drafts.
     */
    method HandleSave(reply: Response<()>, refresh: Response<Sections>)
      modifies this`message, this`editData, this`editTheme, this`content, this`theme, this`sent
      ensures var call := if activeSection == "theme" then CmsUpdateTheme(old(CurrentTheme()))
                          else CmsUpdateContent(activeSection, old(CurrentContent()));
              var reload := if activeSection == "theme" then RefreshTheme else RefreshContent;
              sent == old(sent) + [call] + (if reply.Accepted? then [reload] else [])
      ensures reply.Accepted? && activeSection == "theme" ==>
                theme == Latest(old(theme), refresh) && content == old(content)
      ensures reply.Accepted? && activeSection != "theme" ==>
                content == Latest(old(content), refresh) && theme == old(theme)
      ensures !reply.Accepted? ==> content == old(content) && theme == old(theme)
      ensures reply.Accepted? && !refresh.Thrown? ==>
                && editData == map[] && editTheme == None
                && message == Notice("\U{2705} Changes saved successfully!", Success)
      ensures reply.Accepted? && refresh.Thrown? ==>
                && editData == old(editData) && editTheme == old(editTheme)
                && message == Notice("\U{274C} Error saving changes: " + refresh.error, Error)
      ensures reply.Declined? ==>
                && editData == old(editData) && editTheme == old(editTheme)
                && message == Notice("\U{274C} Failed to save changes", Error)
      ensures reply.Thrown? ==>
                && editData == old(editData) && editTheme == old(editTheme)
                && message == Notice("\U{274C} Error saving changes: " + reply.error, Error)
    {
      message := NoNotice;
      var thrown: Option<string> := None;
      if activeSection == "theme" {
        sent := sent + [CmsUpdateTheme(ThemeOrDraft(editTheme, theme))];
        if reply.Accepted? {
          thrown := ReloadTheme(refresh);
        }
      } else {
        sent := sent + [CmsUpdateContent(activeSection, DraftOrSynced(editData, content, activeSection))];
        if reply.Accepted? {
          thrown := ReloadContent(refresh);
        }
      }
      if reply.Thrown? {
        thrown := Some(reply.error);
      }
      if thrown.Some? {
        message := Notice("\U{274C} Error saving changes: " + thrown.value, Error);
      } else if reply.Accepted? {
        message := Notice("\U{2705} Changes saved successfully!", Success);
        editData := map[];
        editTheme := None;
      } else {
        message := Notice("\U{274C} Failed to save changes", Error);
      }
    }

    /* ---------- FAQ editor ---------- */

    /**
     * Add New Question: the FAQ section's `questions` becomes the current
     * list with a placeholder appended under a fresh id. Spreading a
     * `questions` value that is not iterable throws, and nothing changes.
     */
    method AddFaqQuestion()
      requires activeSection == "faq"
      requires CurrentContent().Some? && Truthy(CurrentContent().value)
      modifies this`editData
      ensures var items := FaqItems(old(CurrentContent()).value);
              && (items.None? ==> editData == old(editData))
              && (items.Some? ==>
                    editData == ApplyEdit(old(editData), content, activeSection, "questions", Arr(WithNewQuestion(items.value))))
    {
      var items := FaqItems(DraftOrSynced(editData, content, activeSection).value);
      if items.None? {
        return;
      }
      HandleInputChange("questions", Arr(WithNewQuestion(items.value)));
    }

    /** Delete Question on the FAQ editor, for the question drawn at `index`. */
    method DeleteFaqQuestion(index: nat)
      requires activeSection == "faq"
      requires CurrentContent().Some? && ShownFaqList(CurrentContent().value).Some?
      requires index < |ShownFaqList(CurrentContent().value).value|
      modifies this`editData
      ensures editData == ApplyEdit(old(editData), content, activeSection, "questions",
                                    Arr(WithoutQuestion(ShownFaqList(old(CurrentContent()).value).value, index)))
    {
      var items := ShownFaqList(DraftOrSynced(editData, content, activeSection).value).value;
      HandleInputChange("questions", Arr(WithoutQuestion(items, index)));
    }

    /* ---------- news ---------- */

    /** loadNews: the list is replaced by the service's list only on success. */
    method LoadNews(reply: Response<seq<Article>>)
      modifies this`newsList, this`sent
      ensures sent == old(sent) + [CmsGetNews]
      ensures newsList == Latest(old(newsList), reply)
    {
      sent := sent + [CmsGetNews];
      if reply.Accepted? {
        newsList := reply.payload;
      }
    }

    /**
     * handleImageUpload: a file that is too large or of the wrong type is
     * refused before any call; an uploaded image's address goes into the
     * new-article form.
     */
    method HandleImageUpload(file: Option<ImageFile>, reply: Response<string>)
      modifies this`message, this`newArticle, this`sent
      ensures file.None? ==> message == old(message) && newArticle == old(newArticle) && sent == old(sent)
      ensures file.Some? && ImageProblem(file.value).Some? ==>
                && message == Notice(ImageProblem(file.value).value, Error)
                && newArticle == old(newArticle) && sent == old(sent)
      ensures file.Some? && ImageProblem(file.value).None? ==>
                && sent == old(sent) + [CmsUploadNewsImage(file.value)]
                && (reply.Accepted? ==>
                      && newArticle == old(newArticle).(image := reply.payload)
                      && message == Notice("Gambar berhasil diupload! \U{2705}", Success))
                && (!reply.Accepted? ==>
                      && newArticle == old(newArticle)
                      && message == Refusal(reply, "Gagal upload gambar", "Error saat upload gambar"))
    {
      if file.None? {
        return;
      }
      var problem := ImageProblem(file.value);
      if problem.Some? {
        message := Notice(problem.value, Error);
        return;
      }
      sent := sent + [CmsUploadNewsImage(file.value)];
      if reply.Accepted? {
        newArticle := newArticle.(image := reply.payload);
        message := Notice("Gambar berhasil diupload! \U{2705}", Success);
      } else {
        message := Refusal(reply, "Gagal upload gambar", "Error saat upload gambar");
      }
    }

    /**
     * Add News: an article without a title is refused before any call. The
     * call is awaited outside any `try`, so a thrown error ends the handler
     * with nothing changed.
     */
    method AddNews(reply: Response<()>, reload: Response<seq<Article>>)
      modifies this`message, this`newArticle, this`newsList, this`sent
      ensures ArticleProblem(old(newArticle)).Some? ==>
                && message == Notice(ArticleProblem(old(newArticle)).value, Error)
                && sent == old(sent) && newArticle == old(newArticle) && newsList == old(newsList)
      ensures ArticleProblem(old(newArticle)).None? && reply.Accepted? ==>
                && sent == old(sent) + [CmsCreateNews(old(newArticle))] + [CmsGetNews]
                && message == Notice("News created successfully", Success)
                && newArticle == BlankArticle && newsList == Latest(old(newsList), reload)
      ensures ArticleProblem(old(newArticle)).None? && !reply.Accepted? ==>
                && sent == old(sent) + [CmsCreateNews(old(newArticle))]
                && message == (if reply.Declined? then Notice("Failed to create news", Error) else old(message))
                && newArticle == old(newArticle) && newsList == old(newsList)
    {
      var problem := ArticleProblem(newArticle);
      if problem.Some? {
        message := Notice(problem.value, Error);
        return;
      }
      sent := sent + [CmsCreateNews(newArticle)];
      if reply.Accepted? {
        message := Notice("News created successfully", Success);
        newArticle := BlankArticle;
        LoadNews(reload);
      } else if reply.Declined? {
        message := Notice("Failed to create news", Error);
      }
    }

    /** Edit on a listed article: it is sent back with " (Edited)" after its title. */
    method EditNews(article: Article, reply: Response<()>, reload: Response<seq<Article>>)
      modifies this`message, this`newsList, this`sent
      ensures reply.Accepted? ==>
                && sent == old(sent) + [CmsUpdateNews(article.id, article.(title := article.title + " (Edited)"))] + [CmsGetNews]
                && message == Notice("News updated successfully", Success)
                && newsList == Latest(old(newsList), reload)
      ensures !reply.Accepted? ==>
                && sent == old(sent) + [CmsUpdateNews(article.id, article.(title := article.title + " (Edited)"))]
                && message == old(message) && newsList == old(newsList)
    {
      sent := sent + [CmsUpdateNews(article.id, article.(title := article.title + " (Edited)"))];
      if reply.Accepted? {
        message := Notice("News updated successfully", Success);
        LoadNews(reload);
      }
    }

    /** Delete on a listed article; there is no confirmation step. */
    method DeleteNews(newsId: int, reply: Response<()>, reload: Response<seq<Article>>)
      modifies this`message, this`newsList, this`sent
      ensures reply.Accepted? ==>
                && sent == old(sent) + [CmsDeleteNews(newsId)] + [CmsGetNews]
                && message == Notice("News deleted successfully", Success)
                && newsList == Latest(old(newsList), reload)
      ensures !reply.Accepted? ==>
                sent == old(sent) + [CmsDeleteNews(newsId)] && message == old(message) && newsList == old(newsList)
    {
      sent := sent + [CmsDeleteNews(newsId)];
      if reply.Accepted? {
        message := Notice("News deleted successfully", Success);
        LoadNews(reload);
      }
    }

    /* ---------- questions and answers ---------- */

    /** loadQuestions: the list is replaced only on success; errors are only logged. */
    method LoadQuestions(reply: Response<seq<Question>>)
      modifies this`questionsList, this`sent
      ensures sent == old(sent) + [FetchQuestions]
      ensures questionsList == Latest(old(questionsList), reply)
    {
      sent := sent + [FetchQuestions];
      if reply.Accepted? {
        questionsList := reply.payload;
      }
    }

    /** The Q&A status buttons. */
    method SetQnaFilter(filter: string)
      modifies this`qnaFilter
      ensures qnaFilter == filter
    {
      qnaFilter := filter;
    }

    /** `filteredQuestions`: the questions the Q&A list shows. */
    function FilteredQuestions(): (r: seq<Question>)
      reads this
      ensures qnaFilter == "all" ==> r == questionsList
      ensures qnaFilter != "all" ==> r == WithStatus(questionsList, qnaFilter)
    {
      VisibleQuestions(questionsList, qnaFilter)
    }

    /** handleAnswerQuestion: the answer form opens on `q`, prefilled with its answer and answerer. */
    method HandleAnswerQuestion(q: Question)
      modifies this`selectedQuestion, this`answerText, this`answeredBy
      ensures selectedQuestion == Some(q)
      ensures answerText == AnswerOrBlank(q) && answeredBy == AnsweredByOrAdmin(q)
    {
      selectedQuestion := Some(q);
      answerText := AnswerOrBlank(q);
      answeredBy := AnsweredByOrAdmin(q);
    }

    /** Cancel on the answer form. */
    method CancelAnswer()
      modifies this`selectedQuestion, this`answerText
      ensures selectedQuestion == None && answerText == ""
    {
      selectedQuestion := None;
      answerText := "";
    }

    /**
     * submitAnswer: with no question selected or a blank answer nothing is
     * sent; on success the form closes and the list is reloaded; a refusal
     * or an error leaves the form open.
     */
    method SubmitAnswer(reply: Response<()>, reload: Response<seq<Question>>)
      modifies this`message, this`selectedQuestion, this`answerText, this`questionsList, this`sent
      ensures AnswerProblem(old(selectedQuestion), old(answerText)).Some? ==>
                && message == Notice("Please provide an answer", Error)
                && sent == old(sent) && questionsList == old(questionsList)
                && selectedQuestion == old(selectedQuestion) && answerText == old(answerText)
      ensures AnswerProblem(old(selectedQuestion), old(answerText)).None? ==>
                var call := FetchAnswer(old(selectedQuestion).value.id, old(answerText), answeredBy);
                && (reply.Accepted? ==>
                      && sent == old(sent) + [call] + [FetchQuestions]
                      && message == Notice("Question answered successfully!", Success)
                      && selectedQuestion == None && answerText == ""
                      && questionsList == Latest(old(questionsList), reload))
                && (!reply.Accepted? ==>
                      && sent == old(sent) + [call]
                      && message == Refusal(reply, "Failed to answer question", "Failed to submit answer")
                      && selectedQuestion == old(selectedQuestion) && answerText == old(answerText)
                      && questionsList == old(questionsList))
    {
      var problem := AnswerProblem(selectedQuestion, answerText);
      if problem.Some? {
        message := Notice(problem.value, Error);
        return;
      }
      sent := sent + [FetchAnswer(selectedQuestion.value.id, answerText, answeredBy)];
      if reply.Accepted? {
        message := Notice("Question answered successfully!", Success);
        selectedQuestion := None;
        answerText := "";
        LoadQuestions(reload);
      } else {
        message := Refusal(reply, "Failed to answer question", "Failed to submit answer");
      }
    }

    /** deleteQuestion: nothing happens unless the operator confirms; the list is reloaded only on success. */
    method DeleteQuestion(questionId: int, confirmed: bool, reply: Response<()>, reload: Response<seq<Question>>)
      modifies this`message, this`questionsList, this`sent
      ensures !confirmed ==> message == old(message) && questionsList == old(questionsList) && sent == old(sent)
      ensures confirmed && reply.Accepted? ==>
                && sent == old(sent) + [FetchDeleteQuestion(questionId)] + [FetchQuestions]
                && message == Notice("Question deleted successfully", Success)
                && questionsList == Latest(old(questionsList), reload)
      ensures confirmed && !reply.Accepted? ==>
                && sent == old(sent) + [FetchDeleteQuestion(questionId)]
                && message == (if reply.Thrown? then Notice("Failed to delete question", Error) else old(message))
                && questionsList == old(questionsList)
    {
      if !confirmed {
        return;
      }
      sent := sent + [FetchDeleteQuestion(questionId)];
      if reply.Accepted? {
        message := Notice("Question deleted successfully", Success);
        LoadQuestions(reload);
      } else if reply.Thrown? {
        message := Notice("Failed to delete question", Error);
      }
    }

    /* ---------- videos ---------- */

    /** loadVideos: the list is replaced only on success; errors are only logged. */
    method LoadVideos(reply: Response<seq<Video>>)
      modifies this`videosList, this`sent
      ensures sent == old(sent) + [FetchVideos]
      ensures videosList == Latest(old(videosList), reply)
    {
      sent := sent + [FetchVideos];
      if reply.Accepted? {
        videosList := reply.payload;
      }
    }

    /**
     * handleCreateVideo: a form without a reference or a title, and a
     * reference that does not resolve to an eleven-character ID, are
     * refused before any call; otherwise the form is sent with the resolved
     * ID, and on success the form is reset and the list reloaded.
     */
    method HandleCreateVideo(parse: string -> UrlParse, reply: Response<()>, reload: Response<seq<Video>>)
      modifies this`message, this`newVideo, this`videosList, this`sent
      ensures VideoFormProblem(old(newVideo)).Some? ==>
                && message == Notice("YouTube ID and Title are required", Error)
                && sent == old(sent) && newVideo == old(newVideo) && videosList == old(videosList)
      ensures VideoFormProblem(old(newVideo)).None? && ResolveYouTubeId(old(newVideo).youtubeId, parse).Rejected? ==>
                && message == Notice(ErrorText(ResolveYouTubeId(old(newVideo).youtubeId, parse).error), Error)
                && sent == old(sent) && newVideo == old(newVideo) && videosList == old(videosList)
      ensures VideoFormProblem(old(newVideo)).None? && ResolveYouTubeId(old(newVideo).youtubeId, parse).Resolved? ==>
                var call := FetchCreateVideo(old(newVideo).(youtubeId := ResolveYouTubeId(old(newVideo).youtubeId, parse).id));
                && (reply.Accepted? ==>
                      && sent == old(sent) + [call] + [FetchVideos]
                      && message == Notice("Video created successfully!", Success)
                      && newVideo == BlankVideoForm && videosList == Latest(old(videosList), reload))
                && (!reply.Accepted? ==>
                      && sent == old(sent) + [call]
                      && message == Refusal(reply, "Failed to create video", "Failed to create video")
                      && newVideo == old(newVideo) && videosList == old(videosList))
    {
      var problem := VideoFormProblem(newVideo);
      if problem.Some? {
        message := Notice(problem.value, Error);
        return;
      }
      var resolved := ResolveYouTubeId(newVideo.youtubeId, parse);
      if resolved.Rejected? {
        message := Notice(ErrorText(resolved.error), Error);
        return;
      }
      sent := sent + [FetchCreateVideo(newVideo.(youtubeId := resolved.id))];
      if reply.Accepted? {
        message := Notice("Video created successfully!", Success);
        newVideo := BlankVideoForm;
        LoadVideos(reload);
      } else {
        message := Refusal(reply, "Failed to create video", "Failed to create video");
      }
    }

    /** Edit on a listed video opens the edit form on it. */
    method StartEditingVideo(v: Video)
      modifies this`editingVideo
      ensures editingVideo == Some(v)
    {
      editingVideo := Some(v);
    }

    /** Cancel on the edit form. */
    method CancelEditingVideo()
      modifies this`editingVideo
      ensures editingVideo == None
    {
      editingVideo := None;
    }

    /**
     * handleUpdateVideo: without an open edit form nothing happens; a
     * reference that does not resolve is refused before any call; on
     * success the form closes and the list is reloaded.
     */
    method HandleUpdateVideo(parse: string -> UrlParse, reply: Response<()>, reload: Response<seq<Video>>)
      modifies this`message, this`editingVideo, this`videosList, this`sent
      ensures old(editingVideo).None? ==>
                message == old(message) && editingVideo == None && videosList == old(videosList) && sent == old(sent)
      ensures old(editingVideo).Some? && ResolveYouTubeId(old(editingVideo).value.youtubeId, parse).Rejected? ==>
                && message == Notice(ErrorText(ResolveYouTubeId(old(editingVideo).value.youtubeId, parse).error), Error)
                && sent == old(sent) && editingVideo == old(editingVideo) && videosList == old(videosList)
      ensures old(editingVideo).Some? && ResolveYouTubeId(old(editingVideo).value.youtubeId, parse).Resolved? ==>
                var v := old(editingVideo).value;
                var call := FetchUpdateVideo(v.videoId, v.(youtubeId := ResolveYouTubeId(v.youtubeId, parse).id));
                && (reply.Accepted? ==>
                      && sent == old(sent) + [call] + [FetchVideos]
                      && message == Notice("Video updated successfully!", Success)
                      && editingVideo == None && videosList == Latest(old(videosList), reload))
                && (!reply.Accepted? ==>
                      && sent == old(sent) + [call]
                      && message == Refusal(reply, "Failed to update video", "Failed to update video")
                      && editingVideo == old(editingVideo) && videosList == old(videosList))
    {
      if editingVideo.None? {
        return;
      }
      var v := editingVideo.value;
      var resolved := ResolveYouTubeId(v.youtubeId, parse);
      if resolved.Rejected? {
        message := Notice(ErrorText(resolved.error), Error);
        return;
      }
      sent := sent + [FetchUpdateVideo(v.videoId, v.(youtubeId := resolved.id))];
      if reply.Accepted? {
        message := Notice("Video updated successfully!", Success);
        editingVideo := None;
        LoadVideos(reload);
      } else {
        message := Refusal(reply, "Failed to update video", "Failed to update video");
      }
    }

    /** handleDeleteVideo: nothing happens unless the operator confirms; the list is reloaded only on success. */
    method HandleDeleteVideo(videoId: int, confirmed: bool, reply: Response<()>, reload: Response<seq<Video>>)
      modifies this`message, this`videosList, this`sent
      ensures !confirmed ==> message == old(message) && videosList == old(videosList) && sent == old(sent)
      ensures confirmed && reply.Accepted? ==>
                && sent == old(sent) + [FetchDeleteVideo(videoId)] + [FetchVideos]
                && message == Notice("Video deleted successfully", Success)
                && videosList == Latest(old(videosList), reload)
      ensures confirmed && !reply.Accepted? ==>
                && sent == old(sent) + [FetchDeleteVideo(videoId)]
                && message == (if reply.Thrown? then Notice("Failed to delete video", Error) else old(message))
                && videosList == old(videosList)
    {
      if !confirmed {
        return;
      }
      sent := sent + [FetchDeleteVideo(videoId)];
      if reply.Accepted? {
        message := Notice("Video deleted successfully", Success);
        LoadVideos(reload);
      } else if reply.Thrown? {
        message := Notice("Failed to delete video", Error);
      }
    }

    /** handleToggleVideoActive: the list is reloaded only on success. */
    method HandleToggleVideoActive(videoId: int, reply: Response<()>, reload: Response<seq<Video>>)
      modifies this`message, this`videosList, this`sent
      ensures reply.Accepted? ==>
                && sent == old(sent) + [FetchToggleVideo(videoId)] + [FetchVideos]
                && message == Notice("Video status updated", Success)
                && videosList == Latest(old(videosList), reload)
      ensures !reply.Accepted? ==>
                && sent == old(sent) + [FetchToggleVideo(videoId)]
                && message == (if reply.Thrown? then Notice("Failed to update video status", Error) else old(message))
                && videosList == old(videosList)
    {
      sent := sent + [FetchToggleVideo(videoId)];
      if reply.Accepted? {
        message := Notice("Video status updated", Success);
        LoadVideos(reload);
      } else if reply.Thrown? {
        message := Notice("Failed to update video status", Error);
      }
    }
  }

  /**
   * Reloading the page mounts a new dashboard over the same browser
   * session, and it comes back in the same login state.
   */
  method Reopen(d: AdminDashboard) returns (e: AdminDashboard)
    requires d.Valid()
    ensures fresh(e) && e.Valid()
    ensures e.isAuthenticated == d.isAuthenticated && e.storedAuth == d.storedAuth
  {
    e := new AdminDashboard(d.storedAuth, d.content, d.theme);
  }
}
