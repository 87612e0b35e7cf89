/**
 * The chat panel: the message log that a send appends to, the paragraph
 * splitting and code/list classification of a message's content, and the
 * "Sources" block that groups the retrieved documents by source with their
 * page numbers deduplicated and sorted.
 */
module Chat {
  import opened Wrappers
  import opened Text
  import opened Seqs

  datatype Role = User | Assistant

  datatype Loc = Loc(pageNumber: Option<int>)
  datatype Metadata = Metadata(loc: Option<Loc>, source: Option<string>, pdf: Option<string>, filename: Option<string>)
  /** A retrieved document as the client receives it; every field may be missing. */
  datatype Doc = Doc(pageContent: Option<string>, metadata: Option<Metadata>)

  datatype Message = Message(role: Role, content: Option<string>, documents: Option<seq<Doc>>)

  /** A chat request as the server reads its query string. */
  datatype ChatRequest = ChatRequest(message: Option<string>, userId: Option<string>)

  /** How the request ended: the `message` and `docs` fields of the parsed
      reply body (each may be missing), or a failed fetch or parse. */
  datatype Reply = Replied(message: Option<string>, docs: Option<seq<Doc>>) | RequestFailed

  const FailureReply: string := "Sorry, I encountered an error while processing your request."

  /** The assistant message appended for a reply. */
  function AssistantMessage(reply: Reply): (m: Message)
    ensures m.role == Assistant
    ensures reply.Replied? ==> m.content == reply.message && m.documents == reply.docs
    ensures reply.RequestFailed? ==> m.content == Some(FailureReply) && m.documents.None?
  {
    match reply
    case Replied(text, docs) => Message(Assistant, text, docs)
    case RequestFailed => Message(Assistant, Some(FailureReply), None)
  }

  /** The component's state: the input box, the message log and the loading flag. */
  class ChatPanel {
    var input: string
    var messages: seq<Message>
    var isLoading: bool

    constructor()
      ensures input == "" && messages == [] && !isLoading
    {
      input := "";
      messages := [];
      isLoading := false;
    }

    /**
     * `handleSendChatMessage`, with the reply to the request it sends as a
     * parameter. A blank input changes nothing and sends nothing; otherwise
     * the input is cleared, the user's message and then the assistant's are
     * appended, and the request carries the message and no user id.
     */
    method SendChatMessage(reply: Reply) returns (sent: Option<ChatRequest>)
      modifies this
      ensures IsBlank(old(input)) ==> sent.None? && input == old(input) && messages == old(messages) && isLoading == old(isLoading)
      ensures !IsBlank(old(input)) ==>
        && sent == Some(ChatRequest(Some(old(input)), None))
        && input == "" && !isLoading
        && messages == old(messages) + [Message(User, Some(old(input)), None), AssistantMessage(reply)]
    {
      if Trim(input) == "" {
        sent := None;
        return;
      }
      sent := Exchange(input, reply);
    }

    /** The non-blank path: clear the input, append the user's message, send
        it, then append the assistant's answer. */
    method Exchange(userMessage: string, reply: Reply) returns (sent: Option<ChatRequest>)
      modifies this
      ensures sent == Some(ChatRequest(Some(userMessage), None))
      ensures input == "" && !isLoading
      ensures messages == old(messages) + [Message(User, Some(userMessage), None), AssistantMessage(reply)]
    {
      var userEntry := Message(User, Some(userMessage), None);
      var assistantEntry := AssistantMessage(reply);
      input := "";
      messages := messages + [userEntry];
      isLoading := true;
      sent := Some(ChatRequest(Some(userMessage), None));
      messages := messages + [assistantEntry];
      isLoading := false;
      assert messages == old(messages) + [userEntry, assistantEntry];
    }
  }

  // ---------------------------------------------------------------------------
  // Message content

  /** How a paragraph is shown. */
  datatype Block = CodeBlock(code: string) | ListBlock(items: seq<string>) | TextBlock(text: string)

  const CodeFence: string := "```"
  const ParagraphBreak: string := "\n\n"

  predicate IsParagraph(p: string) {
    Trim(p) != ""
  }

  /** `content.split('\n\n').filter(p => p.trim() !== '')` */
  function Paragraphs(content: string): (r: seq<string>)
    ensures forall p :: p in r ==> !IsBlank(p) && NoOccurrence(p, ParagraphBreak)
    ensures r == [] <==> IsBlank(content)
  {
    ParagraphFacts(content);
    Filter(IsParagraph, Split(content, ParagraphBreak))
  }

  lemma ParagraphFacts(content: string)
    ensures forall p :: p in Filter(IsParagraph, Split(content, ParagraphBreak)) ==>
      !IsBlank(p) && NoOccurrence(p, ParagraphBreak)
    ensures Filter(IsParagraph, Split(content, ParagraphBreak)) == [] <==> IsBlank(content)
  {
    ParagraphPieces(Split(content, ParagraphBreak));
    JoinBlank(Split(content, ParagraphBreak), ParagraphBreak);
  }

  /** The kept pieces are the non-blank ones, and none is kept exactly when
      every piece is blank. */
  lemma ParagraphPieces(pieces: seq<string>)
    requires forall k :: 0 <= k < |pieces| ==> NoOccurrence(pieces[k], ParagraphBreak)
    ensures forall p :: p in Filter(IsParagraph, pieces) ==> !IsBlank(p) && NoOccurrence(p, ParagraphBreak)
    ensures Filter(IsParagraph, pieces) == [] <==> forall k :: 0 <= k < |pieces| ==> IsBlank(pieces[k])
  {
    forall p | p in Filter(IsParagraph, pieces) ensures !IsBlank(p) && NoOccurrence(p, ParagraphBreak) {
      var k :| 0 <= k < |pieces| && pieces[k] == p;
    }
    FilterEmpty(IsParagraph, pieces);
  }

  /** Content built from separable pieces (no blank line inside a piece, no
      piece but the last ending in a line break) gives back its non-blank
      pieces, in order; when every piece is non-blank, exactly the pieces.
      Multi-line paragraphs, such as lists, are covered. */
  lemma ParagraphsOfJoin(ps: seq<string>)
    requires |ps| > 0
    requires Separable(ps, ParagraphBreak)
    ensures Paragraphs(Join(ps, ParagraphBreak)) == Filter(IsParagraph, ps)
    ensures (forall k :: 0 <= k < |ps| ==> !IsBlank(ps[k])) ==> Paragraphs(Join(ps, ParagraphBreak)) == ps
  {
    SplitJoin(ps, ParagraphBreak);
    if forall k :: 0 <= k < |ps| ==> !IsBlank(ps[k]) {
      FilterAll(IsParagraph, ps);
    }
  }

  /** Every content has such pieces: its own split on `"\n\n"` is separable
      and joins back into it, so ParagraphsOfJoin describes every message. */
  lemma ParagraphsOfAnyContent(content: string)
    ensures Separable(Split(content, ParagraphBreak), ParagraphBreak)
    ensures Join(Split(content, ParagraphBreak), ParagraphBreak) == content
  {
    SplitDoubledSeparable(content, '\n');
  }

  /** `paragraph.slice(3, -3)`, which is empty when the fences overlap. */
  function CodeBody(p: string): (r: string)
    ensures |p| >= 6 ==> p == p[..3] + r + p[|p| - 3..]
    ensures |p| < 6 ==> r == ""
  {
    if |p| >= 6 then
      assert p == p[..3] + p[3..|p| - 3] + p[|p| - 3..];
      p[3..|p| - 3]
    else ""
  }

  /** A line the list branch keeps: its trimmed form starts with a marker. */
  predicate IsListLine(line: string) {
    StartsWith(Trim(line), "- ") || StartsWith(Trim(line), "* ")
  }

  /** `item.replace(/^[*-]\s+/, '')`: the marker and the whitespace after it
      go only when the marker is the first character. */
  function StripListMarker(item: string): (r: string)
    ensures |item| >= 2 && (item[0] == '-' || item[0] == '*') && IsSpace(item[1]) ==>
      r == TrimStart(item[1..])
    ensures !(|item| >= 2 && (item[0] == '-' || item[0] == '*') && IsSpace(item[1])) ==> r == item
  {
    if |item| >= 2 && (item[0] == '-' || item[0] == '*') && IsSpace(item[1]) then TrimStart(item[1..])
    else item
  }

  /** A marker, whitespace and text give back the text. */
  lemma StripMarkerOfItem(marker: char, gap: string, text: string)
    requires marker == '-' || marker == '*'
    requires gap != [] && IsBlank(gap)
    requires text == [] || !IsSpace(text[0])
    ensures StripListMarker([marker] + gap + text) == text
  {
    var item := [marker] + gap + text;
    assert item[1..] == gap + text;
    TrimStartOfBlankPrefix(gap, text);
  }

  lemma {:induction false} TrimStartOfBlankPrefix(gap: string, text: string)
    requires IsBlank(gap)
    requires text == [] || !IsSpace(text[0])
    ensures TrimStart(gap + text) == text
    decreases |gap|
  {
    if gap == [] {
      assert gap + text == text;
    } else {
      assert (gap + text)[0] == gap[0];
      assert (gap + text)[1..] == gap[1..] + text;
      TrimStartOfBlankPrefix(gap[1..], text);
    }
  }

  /** The items of a list paragraph: its marker lines, each stripped. */
  function ListItems(p: string): seq<string> {
    StripMarkers(Filter(IsListLine, Split(p, "\n")))
  }

  function StripMarkers(lines: seq<string>): (r: seq<string>)
    ensures |r| == |lines|
    ensures forall i :: 0 <= i < |lines| ==> r[i] == StripListMarker(lines[i])
  {
    if lines == [] then [] else [StripListMarker(lines[0])] + StripMarkers(lines[1..])
  }

  /** A list paragraph made of lines gives back its marker lines, in order,
      each with its marker stripped; the other lines are dropped. */
  lemma ListItemsOfLines(lines: seq<string>)
    requires |lines| > 0
    requires forall k, i :: 0 <= k < |lines| && 0 <= i < |lines[k]| ==> lines[k][i] != '\n'
    ensures ListItems(Join(lines, "\n")) == StripMarkers(Filter(IsListLine, lines))
  {
    forall k | 0 <= k < |lines| ensures NoOccurrence(lines[k], "\n") {
      AbsentCharNoOccurrence(lines[k], "\n", 0);
    }
    SplitJoin(lines, "\n");
  }

  /** The branch a paragraph takes: code fence first, then list marker. */
  function ClassifyParagraph(p: string): (b: Block)
    ensures b.CodeBlock? <==> StartsWith(p, CodeFence) && EndsWith(p, CodeFence)
    ensures b.ListBlock? <==> !b.CodeBlock? && IsListLine(p)
    ensures b.CodeBlock? ==> b.code == CodeBody(p)
    ensures b.ListBlock? ==> b.items == ListItems(p)
    ensures b.TextBlock? ==> b.text == p
  {
    if StartsWith(p, CodeFence) && EndsWith(p, CodeFence) then CodeBlock(CodeBody(p))
    else if IsListLine(p) then ListBlock(ListItems(p))
    else TextBlock(p)
  }

  /** A fenced paragraph renders its body as code. */
  lemma FencedIsCode(body: string)
    ensures ClassifyParagraph(CodeFence + body + CodeFence) == CodeBlock(body)
  {
    var p := CodeFence + body + CodeFence;
    assert p[..3] == CodeFence;
    assert p[|p| - 3..] == CodeFence;
    assert p[3..|p| - 3] == body;
  }

  /** `renderMessageContent`: nothing for missing or empty content, else one
      block per paragraph. */
  function RenderMessageContent(content: Option<string>): (r: Option<seq<Block>>)
    ensures r.None? <==> !Truthy(content)
    ensures r.Some? ==> |r.value| == |Paragraphs(content.value)|
    ensures r.Some? ==> forall i :: 0 <= i < |r.value| ==> r.value[i] == ClassifyParagraph(Paragraphs(content.value)[i])
  {
    if !Truthy(content) then None
    else
      var ps := Paragraphs(content.value);
      Some(seq(|ps|, i requires 0 <= i < |ps| => ClassifyParagraph(ps[i])))
  }

  // ---------------------------------------------------------------------------
  // Sources

  const UnknownSource: string := "Unknown Source"

  /** `doc.metadata?.source || doc.metadata?.filename || 'Unknown Source'` */
  function SourceKey(d: Doc): string {
    if d.metadata.Some? && Truthy(d.metadata.value.source) then d.metadata.value.source.value
    else if d.metadata.Some? && Truthy(d.metadata.value.filename) then d.metadata.value.filename.value
    else UnknownSource
  }

  /** The index at which `key` first appears as a source key, or `|docs|`
      when it does not appear. */
  function FirstIndex(docs: seq<Doc>, key: string): (i: nat)
    ensures i <= |docs|
    ensures i < |docs| ==> SourceKey(docs[i]) == key
    ensures forall j :: 0 <= j < i ==> SourceKey(docs[j]) != key
  {
    if docs == [] then 0
    else if SourceKey(docs[0]) == key then 0
    else 1 + FirstIndex(docs[1..], key)
  }

  /** Appending a document leaves the first appearance of a key already
      present where it was, and puts a new key's at the end. */
  lemma FirstIndexSnoc(prefix: seq<Doc>, last: Doc, key: string)
    ensures FirstIndex(prefix, key) < |prefix| ==> FirstIndex(prefix + [last], key) == FirstIndex(prefix, key)
    ensures FirstIndex(prefix, key) == |prefix| && SourceKey(last) == key ==> FirstIndex(prefix + [last], key) == |prefix|
  {
    var docs := prefix + [last];
    forall j | 0 <= j < |prefix| ensures docs[j] == prefix[j] {
    }
    var n := FirstIndex(prefix, key);
    if n < |prefix| {
      assert SourceKey(docs[n]) == key;
    } else {
      assert docs[|prefix|] == last;
    }
  }

  /** A key is among the documents' keys exactly when it has a first index. */
  lemma FirstIndexPresent(docs: seq<Doc>, key: string)
    ensures FirstIndex(docs, key) < |docs| <==> exists d :: d in docs && SourceKey(d) == key
  {
    if exists d :: d in docs && SourceKey(d) == key {
      var d :| d in docs && SourceKey(d) == key;
      var j :| 0 <= j < |docs| && docs[j] == d;
    }
  }

  /** `r` lists the documents' source keys once each, in order of first appearance. */
  ghost predicate KeysInFirstOrder(docs: seq<Doc>, r: seq<string>) {
    && (forall k :: k in r <==> exists d :: d in docs && SourceKey(d) == k)
    && (forall i, j :: 0 <= i < j < |r| ==> r[i] != r[j])
    && (forall i, j :: 0 <= i < j < |r| ==> FirstIndex(docs, r[i]) < FirstIndex(docs, r[j]))
  }

  /** The distinct source keys in order of first appearance: the iteration
      order of the `Map` the documents are grouped in. */
  function SourceOrder(docs: seq<Doc>): (r: seq<string>)
    ensures forall k :: k in r <==> exists d :: d in docs && SourceKey(d) == k
    ensures forall i, j :: 0 <= i < j < |r| ==> r[i] != r[j]
    ensures forall i, j :: 0 <= i < j < |r| ==> FirstIndex(docs, r[i]) < FirstIndex(docs, r[j])
  {
    if docs == [] then []
    else
      var prefix := docs[..|docs| - 1];
      var last := docs[|docs| - 1];
      var keys := SourceOrder(prefix);
      var r := if SourceKey(last) in keys then keys else keys + [SourceKey(last)];
      assert docs == prefix + [last];
      SourceOrderSnoc(prefix, last, keys);
      r
  }

  /** A further document adds its key at the end when the key is new, and
      changes nothing otherwise. */
  lemma SourceOrderSnoc(prefix: seq<Doc>, last: Doc, keys: seq<string>)
    requires KeysInFirstOrder(prefix, keys)
    ensures KeysInFirstOrder(prefix + [last],
      if SourceKey(last) in keys then keys else keys + [SourceKey(last)])
  {
    var r := if SourceKey(last) in keys then keys else keys + [SourceKey(last)];
    SnocKeys(prefix, last, keys, r);
    SnocOrder(prefix, last, keys, r);
  }

  lemma SnocKeys(prefix: seq<Doc>, last: Doc, keys: seq<string>, r: seq<string>)
    requires forall k :: k in keys <==> exists d :: d in prefix && SourceKey(d) == k
    requires forall i, j :: 0 <= i < j < |keys| ==> keys[i] != keys[j]
    requires r == if SourceKey(last) in keys then keys else keys + [SourceKey(last)]
    ensures forall k :: k in r <==> exists d :: d in prefix + [last] && SourceKey(d) == k
    ensures forall i, j :: 0 <= i < j < |r| ==> r[i] != r[j]
  {
    var docs := prefix + [last];
    assert last in docs;
    forall k | k in r ensures exists d :: d in docs && SourceKey(d) == k {
      if k in keys {
        var d :| d in prefix && SourceKey(d) == k;
        assert d in docs;
      }
    }
    forall d | d in docs ensures SourceKey(d) in r {
      if d != last {
        assert d in prefix;
      }
    }
  }

  lemma SnocOrder(prefix: seq<Doc>, last: Doc, keys: seq<string>, r: seq<string>)
    requires forall k :: k in keys <==> exists d :: d in prefix && SourceKey(d) == k
    requires forall i, j :: 0 <= i < j < |keys| ==> FirstIndex(prefix, keys[i]) < FirstIndex(prefix, keys[j])
    requires r == if SourceKey(last) in keys then keys else keys + [SourceKey(last)]
    ensures forall i, j :: 0 <= i < j < |r| ==> FirstIndex(prefix + [last], r[i]) < FirstIndex(prefix + [last], r[j])
  {
    var docs := prefix + [last];
    forall i | 0 <= i < |keys| ensures FirstIndex(docs, keys[i]) == FirstIndex(prefix, keys[i]) < |prefix| {
      assert keys[i] in keys;
      FirstIndexPresent(prefix, keys[i]);
      FirstIndexSnoc(prefix, last, keys[i]);
    }
    if SourceKey(last) !in keys {
      FirstIndexPresent(prefix, SourceKey(last));
      FirstIndexSnoc(prefix, last, SourceKey(last));
      assert r[|keys|] == SourceKey(last);
    }
  }

  /** The documents with the given key, in input order and with their
      repeats: `Array.prototype.filter` on the key. */
  function DocsWithKey(docs: seq<Doc>, key: string): (r: seq<Doc>)
    ensures forall d :: d in r <==> d in docs && SourceKey(d) == key
    ensures r == Filter((d: Doc) => SourceKey(d) == key, docs)
  {
    if docs == [] then []
    else
      var prefix := docs[..|docs| - 1];
      var last := docs[|docs| - 1];
      assert docs == prefix + [last];
      FilterAppend((d: Doc) => SourceKey(d) == key, prefix, [last]);
      DocsWithKey(prefix, key) + (if SourceKey(last) == key then [last] else [])
  }

  /** Every document lands in the group of its own key and in no other. */
  lemma EachDocInOneGroup(docs: seq<Doc>, d: Doc, key: string)
    requires d in docs
    ensures d in DocsWithKey(docs, key) <==> key == SourceKey(d)
    ensures SourceKey(d) in SourceOrder(docs)
  {
  }

  /** `keys` and `groups` hold the grouping of `docs`: the keys in order of
      first appearance and, per key, its documents. */
  ghost predicate Grouped(docs: seq<Doc>, keys: seq<string>, groups: map<string, seq<Doc>>) {
    && keys == SourceOrder(docs)
    && (forall k :: k in groups <==> k in keys)
    && (forall k :: k in groups ==> groups[k] == DocsWithKey(docs, k))
  }

  /** The `forEach` that fills the `Map`: keys in insertion order and, per
      key, the documents pushed under it. */
  method GroupBySource(docs: seq<Doc>) returns (keys: seq<string>, groups: map<string, seq<Doc>>)
    ensures keys == SourceOrder(docs)
    ensures forall k :: k in groups <==> k in keys
    ensures forall k :: k in groups ==> groups[k] == DocsWithKey(docs, k)
  {
    keys := [];
    groups := map[];
    for i := 0 to |docs|
      invariant Grouped(docs[..i], keys, groups)
    {
      ghost var keys0, groups0 := keys, groups;
      var doc := docs[i];
      var source := SourceKey(doc);
      if source !in groups {
        groups := groups[source := []];
        keys := keys + [source];
      }
      groups := groups[source := groups[source] + [doc]];
      GroupStep(docs, i, keys0, groups0, keys, groups);
    }
    FullPrefix(docs);
  }

  /** Pushing one more document under its key keeps the grouping. */
  lemma GroupStep(docs: seq<Doc>, i: nat, keys: seq<string>, groups: map<string, seq<Doc>>,
                  keys': seq<string>, groups': map<string, seq<Doc>>)
    requires i < |docs|
    requires Grouped(docs[..i], keys, groups)
    requires keys' == if SourceKey(docs[i]) in groups then keys else keys + [SourceKey(docs[i])]
    requires groups' == groups[SourceKey(docs[i]) := (if SourceKey(docs[i]) in groups then groups[SourceKey(docs[i])] else []) + [docs[i]]]
    ensures Grouped(docs[..i + 1], keys', groups')
  {
    GroupKeysStep(docs, i, keys, groups, keys', groups');
    GroupValuesStep(docs, i, keys, groups, keys', groups');
  }

  lemma GroupKeysStep(docs: seq<Doc>, i: nat, keys: seq<string>, groups: map<string, seq<Doc>>,
                  keys': seq<string>, groups': map<string, seq<Doc>>)
    requires i < |docs|
    requires Grouped(docs[..i], keys, groups)
    requires keys' == if SourceKey(docs[i]) in groups then keys else keys + [SourceKey(docs[i])]
    requires groups' == groups[SourceKey(docs[i]) := (if SourceKey(docs[i]) in groups then groups[SourceKey(docs[i])] else []) + [docs[i]]]
    ensures keys' == SourceOrder(docs[..i + 1])
    ensures forall k :: k in groups' <==> k in keys'
  {
    PrefixOrderStep(docs, i);
  }

  lemma GroupValuesStep(docs: seq<Doc>, i: nat, keys: seq<string>, groups: map<string, seq<Doc>>,
                  keys': seq<string>, groups': map<string, seq<Doc>>)
    requires i < |docs|
    requires Grouped(docs[..i], keys, groups)
    requires keys' == if SourceKey(docs[i]) in groups then keys else keys + [SourceKey(docs[i])]
    requires groups' == groups[SourceKey(docs[i]) := (if SourceKey(docs[i]) in groups then groups[SourceKey(docs[i])] else []) + [docs[i]]]
    ensures forall k :: k in groups' ==> groups'[k] == DocsWithKey(docs[..i + 1], k)
  {
    var source := SourceKey(docs[i]);
    forall k | k in groups' ensures groups'[k] == DocsWithKey(docs[..i + 1], k) {
      PrefixDocsStep(docs, i, k);
      if k == source && source !in groups {
        NoKeyNoGroup(docs[..i], source);
      } else if k != source {
        assert groups'[k] == groups[k];
      }
    }
  }

  /** Taking one more document adds its key to the key order if it is new. */
  lemma PrefixOrderStep(docs: seq<Doc>, i: nat)
    requires i < |docs|
    ensures var keys := SourceOrder(docs[..i]);
            SourceOrder(docs[..i + 1]) == if SourceKey(docs[i]) in keys then keys else keys + [SourceKey(docs[i])]
  {
    assert docs[..i + 1][..i] == docs[..i] && docs[..i + 1][i] == docs[i];
  }

  /** Taking one more document extends the group of its key and no other. */
  lemma PrefixDocsStep(docs: seq<Doc>, i: nat, k: string)
    requires i < |docs|
    ensures DocsWithKey(docs[..i + 1], k) == DocsWithKey(docs[..i], k) + (if SourceKey(docs[i]) == k then [docs[i]] else [])
  {
    assert docs[..i + 1][..i] == docs[..i] && docs[..i + 1][i] == docs[i];
  }

  /** A key that no document carries has an empty group. */
  lemma NoKeyNoGroup(docs: seq<Doc>, key: string)
    requires key !in SourceOrder(docs)
    ensures DocsWithKey(docs, key) == []
  {
  }

  /** The page numbers present in a group, in document order. */
  function DefinedPages(group: seq<Doc>): (r: seq<int>)
    ensures forall p :: p in r <==> exists d :: d in group && PageOf(d) == Some(p)
  {
    if group == [] then []
    else
      (match PageOf(group[0]) case Some(p) => [p] case None => []) + DefinedPages(group[1..])
  }

  /** `doc.metadata?.loc?.pageNumber` */
  function PageOf(d: Doc): Option<int> {
    if d.metadata.Some? && d.metadata.value.loc.Some? then d.metadata.value.loc.value.pageNumber else None
  }

  predicate Distinct(s: seq<int>) {
    forall i, j :: 0 <= i < j < |s| ==> s[i] != s[j]
  }

  predicate Sorted(s: seq<int>) {
    forall i, j :: 0 <= i < j < |s| ==> s[i] <= s[j]
  }

  /** `filter((v, i, self) => v !== undefined && self.indexOf(v) === i)` after
      the undefined values are gone: keeps the first occurrence of each value.
      The contract leaves the order unstated on purpose, since the page
      numbers are sorted right after. */
  function Dedup(xs: seq<int>): (r: seq<int>)
    ensures forall x :: x in r <==> x in xs
    ensures Distinct(r)
  {
    if xs == [] then []
    else
      var prefix := xs[..|xs| - 1];
      var last := xs[|xs| - 1];
      var kept := Dedup(prefix);
      assert xs == prefix + [last];
      if last in kept then kept else kept + [last]
  }

  /** Puts `x` into its place in a sorted sequence. */
  function Insert(x: int, s: seq<int>): (r: seq<int>)
    ensures |r| == |s| + 1
    ensures multiset(r) == multiset(s) + multiset{x}
    ensures forall y :: y in r <==> y == x || y in s
    ensures Sorted(s) ==> Sorted(r)
  {
    if s == [] then [x]
    else if x <= s[0] then
      (if Sorted(s) then ConsSorted(x, s); [x] + s else [x] + s)
    else
      var t := Insert(x, s[1..]);
      assert s == [s[0]] + s[1..];
      if Sorted(s) then
        SortedTail(s);
        assert forall y :: y in t ==> s[0] <= y;
        ConsSorted(s[0], t);
        [s[0]] + t
      else [s[0]] + t
  }

  /** A sorted sequence stays sorted under a head no larger than its elements. */
  lemma ConsSorted(h: int, t: seq<int>)
    requires Sorted(t)
    requires forall y :: y in t ==> h <= y
    ensures Sorted([h] + t)
  {
    var r := [h] + t;
    forall i, j | 0 <= i < j < |r| ensures r[i] <= r[j] {
      assert r[j] == t[j - 1];
      if i > 0 {
        assert r[i] == t[i - 1];
      } else {
        assert t[j - 1] in t;
      }
    }
  }

  lemma SortedTail(s: seq<int>)
    requires Sorted(s) && s != []
    ensures Sorted(s[1..]) && forall y :: y in s[1..] ==> s[0] <= y
  {
  }

  /** `sort((a, b) => a - b)`: ascending numeric order. */
  function SortAscending(xs: seq<int>): (r: seq<int>)
    ensures |r| == |xs|
    ensures multiset(r) == multiset(xs)
    ensures forall y :: y in r <==> y in xs
    ensures Sorted(r)
  {
    if xs == [] then []
    else
      assert xs == [xs[0]] + xs[1..];
      Insert(xs[0], SortAscending(xs[1..]))
  }

  /** The page numbers shown for a group. */
  function PageNumbers(group: seq<Doc>): seq<int> {
    SortAscending(Dedup(DefinedPages(group)))
  }

  /** The page numbers of a group are strictly increasing and are exactly the
      page numbers its documents carry. */
  lemma PageNumbersSpec(group: seq<Doc>)
    ensures forall i, j :: 0 <= i < j < |PageNumbers(group)| ==> PageNumbers(group)[i] < PageNumbers(group)[j]
    ensures forall p :: p in PageNumbers(group) <==> exists d :: d in group && PageOf(d) == Some(p)
  {
    var xs := Dedup(DefinedPages(group));
    var r := SortAscending(xs);
    SortedDistinct(xs, r);
  }

  /** Sorting distinct values gives a strictly increasing sequence. */
  lemma SortedDistinct(xs: seq<int>, r: seq<int>)
    requires Distinct(xs) && Sorted(r) && |r| == |xs|
    requires forall y :: y in r <==> y in xs
    ensures forall i, j :: 0 <= i < j < |r| ==> r[i] < r[j]
  {
    forall i, j | 0 <= i < j < |r| ensures r[i] < r[j] {
      if r[i] == r[j] {
        DuplicateShrinks(xs, r, i, j);
      }
    }
  }

  /** A sequence with a repeated value has fewer distinct values than
      elements, so it cannot hold all values of a distinct sequence of the
      same length. */
  lemma DuplicateShrinks(xs: seq<int>, r: seq<int>, i: int, j: int)
    requires Distinct(xs) && |r| == |xs|
    requires forall y :: y in r <==> y in xs
    requires 0 <= i < j < |r|
    ensures r[i] != r[j]
  {
    var sx := set y | y in xs;
    var sr := set y | y in r;
    assert sx == sr;
    DistinctCard(xs);
    if r[i] == r[j] {
      RepeatCard(r, i, j);
    }
  }

  lemma {:induction false} DistinctCard(xs: seq<int>)
    requires Distinct(xs)
    ensures |set y | y in xs| == |xs|
  {
    if xs != [] {
      var rest := xs[1..];
      DistinctCard(rest);
      assert (set y | y in xs) == (set y | y in rest) + {xs[0]};
      assert xs[0] !in rest by {
        forall k | 0 <= k < |rest| ensures rest[k] != xs[0] {
          assert rest[k] == xs[k + 1];
        }
      }
    }
  }

  lemma {:induction false} CardAtMost(r: seq<int>)
    ensures |set y | y in r| <= |r|
  {
    if r != [] {
      CardAtMost(r[1..]);
      assert (set y | y in r) == (set y | y in r[1..]) + {r[0]};
    }
  }

  lemma RepeatCard(r: seq<int>, i: int, j: int)
    requires 0 <= i < j < |r| && r[i] == r[j]
    ensures |set y | y in r| < |r|
  {
    var rest := r[..j] + r[j + 1..];
    assert (set y | y in r) == (set y | y in rest) by {
      forall y | y in r ensures y in rest {
        var k :| 0 <= k < |r| && r[k] == y;
        if k == j {
          assert rest[i] == r[i];
        } else if k < j {
          assert rest[k] == r[k];
        } else {
          assert rest[k - 1] == r[k];
        }
      }
    }
    CardAtMost(rest);
  }

  /** One entry of the "Sources" block. */
  datatype SourceEntry = SourceEntry(source: string, pages: seq<int>)

  /** `renderDocumentSources`: nothing for missing or empty docs, else one
      entry per source in first-appearance order with its page numbers. */
  method RenderDocumentSources(docs: Option<seq<Doc>>) returns (r: Option<seq<SourceEntry>>)
    ensures r.None? <==> docs.None? || docs.value == []
    ensures r.Some? ==>
      var order := SourceOrder(docs.value);
      && |r.value| == |order|
      && forall i :: 0 <= i < |order| ==> r.value[i] == SourceEntry(order[i], PageNumbers(DocsWithKey(docs.value, order[i])))
  {
    if docs.None? || docs.value == [] {
      return None;
    }
    var keys, groups := GroupBySource(docs.value);
    var entries := seq(|keys|, i requires 0 <= i < |keys| && keys[i] in groups => SourceEntry(keys[i], PageNumbers(groups[keys[i]])));
    return Some(entries);
  }
}
