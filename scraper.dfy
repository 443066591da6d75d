/**
 * The documentation scraper's naming of saved pages: each page is saved under the
 * text after the last `/` of its URL, or `index` when that text is empty, with the
 * extracted page text as the whole file. Fetching and HTML extraction are not modelled.
 */
module Scraper {
  import opened PyStr

  /** A file the scrapers write: its name in the output directory and its text. */
  datatype SavedFile = SavedFile(name: string, text: string)

  const IndexName := "index"

  /** The name a page is saved under: never empty and never holding a `/`. */
  function PageName(url: string): (name: string)
    ensures name != "" && '/' !in name
  {
    LastSegmentSpec(url);
    var segment := LastSegment(url);
    if segment == "" then IndexName else segment
  }

  /** A URL without `/` names its page itself, unless it is empty. */
  lemma PageNameWithoutSlash(url: string)
    requires '/' !in url
    ensures PageName(url) == (if url == "" then IndexName else url)
  {
    LastSegmentSpec(url);
  }

  /** A URL with a `/` names its page by the text after the last one; a trailing `/` gives `index`. */
  lemma PageNameAfterSlash(prefix: string, segment: string)
    requires '/' !in segment
    ensures PageName(prefix + "/" + segment) == (if segment == "" then IndexName else segment)
  {
    LastSegmentSnoc(prefix, segment);
  }

  /** The name is a suffix of the URL that starts it or follows a `/`, unless it is the `index` fallback. */
  lemma PageNameIsLastSegment(url: string)
    ensures PageName(url) == IndexName || (EndsWith(url, PageName(url)) &&
      var prefix := url[..|url| - |PageName(url)|]; prefix == [] || Last(prefix) == '/')
  {
    LastSegmentSpec(url);
  }

  /** The file written for a page: the name with `.txt`, holding exactly the extracted text. */
  function PageFile(url: string, content: string): (f: SavedFile)
    ensures f.text == content
    ensures EndsWith(f.name, ".txt") && f.name[..|f.name| - 4] == PageName(url)
  {
    var f := SavedFile(PageName(url) + ".txt", content);
    assert f.name[|f.name| - 4..] == ".txt";
    f
  }
}
