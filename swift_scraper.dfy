/**
 * The Swift scraper: naming a documentation page after its URL, the page file's
 * text, and turning a page of forum topics into saved question-and-answer files.
 * HTTP, HTML extraction and the pauses between requests are not modelled: the
 * fetched posts and the HTML-to-text cleaning are inputs.
 */
module SwiftScraper {
  import opened Wrappers
  import opened PyStr
  import opened Scraper

  /** `?`, `&` and `=` in a name become `_`, in that order of passes. */
  function Sanitise(name: string): string
  {
    Replace(Replace(Replace(name, "?", "_"), "&", "_"), "=", "_")
  }

  /**
   * Sanitising replaces each `?`, `&` and `=` by `_` in place and keeps every other
   * character, so none of the three is left and nothing else is introduced.
   */
  lemma SanitiseSpec(name: string)
    ensures var r := Sanitise(name);
      |r| == |name| && forall k :: 0 <= k < |name| ==> r[k] == (if name[k] in "?&=" then '_' else name[k])
    ensures var r := Sanitise(name);
      '?' !in r && '&' !in r && '=' !in r &&
      forall c :: c in r && c != '_' ==> c in name
  {
    var r1 := Replace(name, "?", "_");
    var r2 := Replace(r1, "&", "_");
    var r := Replace(r2, "=", "_");
    ReplaceCharMap(name, '?', '_');
    ReplaceCharMap(r1, '&', '_');
    ReplaceCharMap(r2, '=', '_');
    forall c | c in r
      ensures c != '?' && c != '&' && c != '=' && (c != '_' ==> c in name)
    {
      var k :| 0 <= k < |r| && r[k] == c;
      assert r[k] == (if name[k] in "?&=" then '_' else name[k]);
    }
  }

  /** A name without `?`, `&` or `=` is left as it is. */
  lemma SanitiseClean(name: string)
    requires '?' !in name && '&' !in name && '=' !in name
    ensures Sanitise(name) == name
  {
    CharContains(name, '?');
    CharContains(name, '&');
    CharContains(name, '=');
    ReplaceAbsent(name, "?", "_");
    ReplaceAbsent(name, "&", "_");
    ReplaceAbsent(name, "=", "_");
  }

  /**
   * The name of a scraped documentation page: the last path segment with every
   * `.html` removed; if that is empty, the raw second-to-last segment; then
   * sanitised. `None` stands for the `IndexError` of a URL with no `/` whose
   * segment is empty once `.html` is removed.
   */
  function DocName(url: string): Option<string>
  {
    var parts := Split(url, "/");
    var name := Replace(Last(parts), ".html", "");
    if name != "" then Some(Sanitise(name))
    else if |parts| >= 2 then Some(Sanitise(parts[|parts| - 2]))
    else None
  }

  /** A name never holds `/`, `?`, `&` or `=`. */
  lemma DocNameSafe(url: string)
    requires DocName(url).Some?
    ensures var n := DocName(url).value; '/' !in n && '?' !in n && '&' !in n && '=' !in n
  {
    var parts := Split(url, "/");
    SplitPiecesFree(url, "/");
    var name := Replace(Last(parts), ".html", "");
    var raw := if name != "" then name else parts[|parts| - 2];
    assert DocName(url).value == Sanitise(raw);
    assert '/' !in raw by {
      assert Last(parts) in parts;
      CharContains(Last(parts), '/');
      if name != "" {
        if '/' in name {
          ReplaceChars(Last(parts), ".html", "", '/');
        }
      } else {
        assert parts[|parts| - 2] in parts;
        CharContains(parts[|parts| - 2], '/');
      }
    }
    SanitiseSpec(raw);
  }

  /** Exactly the URLs without `/` whose text is empty once `.html` is removed have no name. */
  lemma DocNameNone(url: string)
    ensures DocName(url).None? <==> '/' !in url && Replace(url, ".html", "") == ""
  {
    SplitSingle(url, '/');
    if '/' !in url {
      assert Split(url, "/") == [url];
    }
  }

  /**
   * `.html` is removed wherever it occurs in the last segment, not only at its end:
   * `a.htmlb` names the page `ab`.
   */
  lemma DocNameRemovesHtml(prefix: string, a: string, b: string)
    requires '.' !in a && '.' !in b
    requires '/' !in a + b && '?' !in a + b && '&' !in a + b && '=' !in a + b
    requires a + b != ""
    ensures DocName(prefix + "/" + a + ".html" + b) == Some(a + b)
  {
    var segment := a + ".html" + b;
    assert '/' !in segment;
    assert prefix + "/" + a + ".html" + b == prefix + "/" + segment;
    LastSegmentSnoc(prefix, segment);
    ReplaceBetween(a, ".html", b);
    SanitiseClean(a + b);
  }

  /**
   * When the last segment is empty once `.html` is removed (a trailing `/`, or a
   * bare `.html`), the segment before it names the page, without `.html` removal
   * but sanitised.
   */
  lemma DocNameFallback(prefix: string, segment: string, tail: string)
    requires '/' !in segment && '/' !in tail
    requires Replace(tail, ".html", "") == ""
    ensures DocName(prefix + "/" + segment + "/" + tail) == Some(Sanitise(segment))
  {
    SplitSnoc(prefix + "/" + segment, '/', tail);
    SplitSnoc(prefix, '/', segment);
  }

  /** The text of a saved documentation page: its URL as a header, then the extracted content. */
  function DocPageText(url: string, content: string): (text: string)
    ensures StartsAt(text, "Source: " + url + "\n\n", 0)
    ensures text[|"Source: " + url + "\n\n"|..] == content
  {
    "Source: " + url + "\n\n" + content
  }

  /** The file saved for a documentation page, when the URL yields a name. */
  function DocPageFile(url: string, content: string): (f: Option<SavedFile>)
    ensures f.Some? <==> DocName(url).Some?
    ensures f.Some? ==> f.value.name == DocName(url).value + ".txt" && f.value.text == DocPageText(url, content)
  {
    match DocName(url)
    case None => None
    case Some(name) => Some(SavedFile(name + ".txt", DocPageText(url, content)))
  }

  /** A topic of the forum listing; a missing `id` is `None`, a missing title is empty. */
  datatype Topic = Topic(id: Option<int>, title: string)

  /** A post of a topic: its `accepted_answer` flag (missing is false) and its `cooked` HTML (missing is empty). */
  datatype Post = Post(acceptedAnswer: bool, cooked: string)

  /** Python's truth value of the topic id: present and not zero. */
  predicate HasId(t: Topic)
  {
    t.id.Some? && t.id.value != 0
  }

  /** The number of topics looked at for a page: the first `topicsPerPage`, none when it is not positive. */
  function TopicBudget(topicsPerPage: int, count: nat): (n: nat)
    ensures n <= count
    ensures topicsPerPage <= 0 ==> n == 0
    ensures 0 < topicsPerPage <= count ==> n == topicsPerPage
    ensures topicsPerPage >= count ==> n == count
  {
    if topicsPerPage <= 0 then 0 else if topicsPerPage < count then topicsPerPage else count
  }

  /** The topics with a truthy id, in order. */
  function WithIds(topics: seq<Topic>): (r: seq<Topic>)
    ensures |r| <= |topics|
    ensures forall t <- r :: HasId(t) && t in topics
    ensures forall t <- topics :: HasId(t) ==> t in r
  {
    if topics == [] then []
    else WithIds(topics[..|topics| - 1]) + (if HasId(Last(topics)) then [Last(topics)] else [])
  }

  /** Filtering a concatenation filters each part and keeps them in order. */
  lemma {:induction false} WithIdsAppend(xs: seq<Topic>, ys: seq<Topic>)
    ensures WithIds(xs + ys) == WithIds(xs) + WithIds(ys)
    decreases |ys|
  {
    if ys == [] {
      assert xs + ys == xs;
    } else {
      var init := ys[..|ys| - 1];
      assert (xs + ys)[..|xs + ys| - 1] == xs + init;
      WithIdsAppend(xs, init);
    }
  }

  /** One topic is kept exactly when its id is truthy. */
  lemma WithIdsSingle(t: Topic)
    ensures WithIds([t]) == if HasId(t) then [t] else []
  {
    assert [t][..0] == [];
  }

  /**
   * The topics of one listing page that are fetched, as the loop over
   * `topics[:topicsPerPage]` with its `i >= topicsPerPage` break and its skip of
   * falsy ids selects them. A negative count slices from the end but then breaks
   * at once.
   */
  method SelectTopics(topics: seq<Topic>, topicsPerPage: int) returns (selected: seq<Topic>)
    ensures selected == WithIds(topics[..TopicBudget(topicsPerPage, |topics|)])
  {
    var window := PySlice(topics, 0, topicsPerPage);
    ghost var n := TopicBudget(topicsPerPage, |topics|);
    assert topicsPerPage > 0 ==> window == topics[..n];
    selected := [];
    var i := 0;
    while i < |window|
      invariant 0 <= i <= |window|
      invariant topicsPerPage > 0 ==> i <= n
      invariant selected == WithIds(topics[..if topicsPerPage > 0 then i else 0])
      decreases |window| - i
    {
      if i >= topicsPerPage {
        break;
      }
      var topic := window[i];
      assert topics[..i + 1] == topics[..i] + [topic];
      if !(topic.id.Some? && topic.id.value != 0) {
        i := i + 1;
        continue;
      }
      selected := selected + [topic];
      i := i + 1;
    }
    assert topicsPerPage > 0 ==> i == n;
  }

  /** At most `topicsPerPage` topics of a page are fetched, none when it is not positive. */
  lemma SelectedTopicsBound(topics: seq<Topic>, topicsPerPage: int)
    ensures |WithIds(topics[..TopicBudget(topicsPerPage, |topics|)])| <= if topicsPerPage > 0 then topicsPerPage else 0
  {
  }

  /** The index of the first post after the question whose accepted-answer flag is set. */
  function FirstAccepted(posts: seq<Post>, from: nat): (r: Option<nat>)
    requires 1 <= from
    ensures r.Some? ==> from <= r.value < |posts| && posts[r.value].acceptedAnswer
    ensures r.Some? ==> forall j :: from <= j < r.value ==> !posts[j].acceptedAnswer
    ensures r.None? <==> forall j :: from <= j < |posts| ==> !posts[j].acceptedAnswer
    decreases |posts| - from
  {
    if from >= |posts| then None
    else if posts[from].acceptedAnswer then Some(from)
    else FirstAccepted(posts, from + 1)
  }

  /** The accepted answer of a topic: the text of the first flagged post after the question, if any. */
  function AcceptedAnswer(posts: seq<Post>): Option<string>
  {
    match FirstAccepted(posts, 1)
    case None => None
    case Some(k) => Some(posts[k].cooked)
  }

  /** The loop over `posts[1:]` that keeps the first flagged post's text and stops there. */
  method FindAcceptedAnswer(posts: seq<Post>) returns (answer: Option<string>)
    ensures answer == AcceptedAnswer(posts)
  {
    answer := None;
    var rest := if |posts| >= 1 then posts[1..] else [];
    for i := 0 to |rest|
      invariant forall j :: 1 <= j <= i ==> !posts[j].acceptedAnswer
    {
      if rest[i].acceptedAnswer {
        answer := Some(rest[i].cooked);
        assert FirstAccepted(posts, 1) == Some(i + 1);
        return;
      }
    }
  }

  /** The question post is never the answer, even when it carries the flag itself. */
  lemma QuestionIsNotAnswer(question: Post, replies: seq<Post>)
    requires forall p <- replies :: !p.acceptedAnswer
    ensures AcceptedAnswer([question] + replies) == None
  {
    var posts := [question] + replies;
    forall j | 1 <= j < |posts| ensures !posts[j].acceptedAnswer {
      assert posts[j] in replies;
    }
  }

  /** The search stops at the first flagged post even when its text is empty. */
  lemma FirstFlaggedWins(question: Post, first: string, later: seq<Post>)
    ensures AcceptedAnswer([question, Post(true, first)] + later) == Some(first)
  {
  }

  /** The text of a forum topic before HTML cleaning: title and question, then a non-empty accepted answer. */
  function ForumText(title: string, question: string, answer: Option<string>): string
  {
    "Topic: " + title + "\n\nQuestion:\n" + question + "\n"
      + (if answer.Some? && answer.value != "" then "\nAccepted Solution:\n" + answer.value else "")
  }

  /** The `+=` composition of a forum topic's text. */
  method ComposeForumText(title: string, question: string, answer: Option<string>) returns (fullContent: string)
    ensures fullContent == ForumText(title, question, answer)
  {
    fullContent := "Topic: " + title + "\n\nQuestion:\n" + question + "\n";
    if answer.Some? && answer.value != "" {
      fullContent := fullContent + "\nAccepted Solution:\n" + answer.value;
    }
  }

  /**
   * The topic text opens with the title and the question and then holds exactly the
   * accepted-solution section when the answer is non-empty, and nothing otherwise.
   */
  lemma ForumTextShape(title: string, question: string, answer: Option<string>)
    ensures var t := ForumText(title, question, answer);
      var head := "Topic: " + title + "\n\nQuestion:\n" + question + "\n";
      |head| <= |t| && t[..|head|] == head &&
      (answer.Some? && answer.value != "" ==> t[|head|..] == "\nAccepted Solution:\n" + answer.value) &&
      (answer.None? || answer.value == "" ==> t == head)
  {
    var head := "Topic: " + title + "\n\nQuestion:\n" + question + "\n";
    var t := ForumText(title, question, answer);
    if answer.Some? && answer.value != "" {
      assert t == head + ("\nAccepted Solution:\n" + answer.value);
    } else {
      assert t == head + "";
    }
  }

  const ForumNamePrefix := "swift_forum_"
  const TopicUrlPrefix := "https://forums.swift.org/t/"

  /** The name a forum topic is saved under. */
  function ForumName(id: int): string
  {
    ForumNamePrefix + IntToString(id)
  }

  /** Different topics are saved under different names. */
  lemma ForumNameInjective(a: int, b: int)
    requires ForumName(a) == ForumName(b)
    ensures a == b
  {
    assert IntToString(a) == ForumName(a)[|ForumNamePrefix|..];
    assert IntToString(b) == ForumName(b)[|ForumNamePrefix|..];
    ParseIntToString(a);
    ParseIntToString(b);
  }

  /**
   * The file saved for a fetched topic, when it has posts: its name, and a header
   * with the topic URL before the cleaned text (`clean` stands for the HTML-to-text
   * extraction).
   */
  method SaveTopic(topic: Topic, posts: seq<Post>, clean: string -> string) returns (file: Option<SavedFile>)
    requires HasId(topic)
    ensures posts == [] ==> file == None
    ensures posts != [] ==> file == Some(SavedFile(
      ForumName(topic.id.value) + ".txt",
      "Source: " + TopicUrlPrefix + IntToString(topic.id.value) + "\n\n"
        + clean(ForumText(topic.title, posts[0].cooked, AcceptedAnswer(posts)))))
  {
    if posts == [] {
      return None;
    }
    var content := posts[0].cooked;
    var answer := FindAcceptedAnswer(posts);
    var fullContent := ComposeForumText(topic.title, content, answer);
    var cleanContent := clean(fullContent);
    var filename := ForumNamePrefix + IntToString(topic.id.value);
    file := Some(SavedFile(filename + ".txt", "Source: " + TopicUrlPrefix + IntToString(topic.id.value) + "\n\n" + cleanContent));
  }
}
