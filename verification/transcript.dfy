/** The conversation export: the save and share actions both turn the message list into a
    plain-text transcript, one `Sender: content` entry per message, entries separated by a
    blank line. An empty conversation is refused with an error notice instead. */
module Transcript {
  import opened Chat

  const Separator: string := "\n\n"

  /** Who the transcript says wrote a message: the user is "You", so the two labels tell
      the senders apart. */
  function Label(s: Sender): (r: string)
    ensures r == "You" <==> s == User
    ensures ':' !in r && '\n' !in r
  {
    if s == User then "You" else "MindTrack AI"
  }

  /** One transcript entry: the sender's label, a colon and a space, then the content
      unchanged. */
  function Entry(m: Message): (r: string)
    ensures var head := Label(m.sender) + ": ";
      |r| == |head| + |m.content| && r[..|head|] == head && r[|head|..] == m.content
  {
    Label(m.sender) + ": " + m.content
  }

  function Entries(ms: seq<Message>): (r: seq<string>)
    ensures |r| == |ms| && forall i :: 0 <= i < |ms| ==> r[i] == Entry(ms[i])
  {
    if ms == [] then [] else [Entry(ms[0])] + Entries(ms[1..])
  }

  /** `Array.prototype.join`: the parts with the separator between neighbours. */
  function Join(parts: seq<string>, sep: string): string {
    if parts == [] then ""
    else if |parts| == 1 then parts[0]
    else parts[0] + sep + Join(parts[1..], sep)
  }

  function TranscriptText(ms: seq<Message>): string {
    Join(Entries(ms), Separator)
  }

  /** What an export action ends in: a destructive notice with the given title, or the text. */
  datatype Export = Refused(title: string) | Exported(text: string)

  function SaveConversation(ms: seq<Message>): (r: Export)
    ensures r.Refused? <==> ms == []
    ensures r.Refused? ==> r.title == "Nothing to save"
    ensures r.Exported? ==> r.text == TranscriptText(ms)
  {
    if |ms| == 0 then Refused("Nothing to save") else Exported(TranscriptText(ms))
  }

  function ShareConversation(ms: seq<Message>): (r: Export)
    ensures r.Refused? <==> ms == []
    ensures r.Refused? ==> r.title == "Nothing to share"
    ensures r.Exported? ==> r.text == TranscriptText(ms)
  {
    if |ms| == 0 then Refused("Nothing to share") else Exported(TranscriptText(ms))
  }

  /** Saving and sharing a non-empty conversation produce the same text. */
  lemma SaveAndShareAgree(ms: seq<Message>)
    requires ms != []
    ensures SaveConversation(ms).Exported? && ShareConversation(ms).Exported?
    ensures SaveConversation(ms).text == ShareConversation(ms).text
  {
  }

  lemma {:induction false} JoinSnoc(parts: seq<string>, p: string, sep: string)
    requires parts != []
    ensures Join(parts + [p], sep) == Join(parts, sep) + sep + p
    decreases |parts|
  {
    if |parts| == 1 {
      assert parts + [p] == [parts[0], p];
      assert [parts[0], p][1..] == [p];
    } else {
      assert (parts + [p])[1..] == parts[1..] + [p];
      JoinSnoc(parts[1..], p, sep);
    }
  }

  /** Appending a message to a non-empty conversation appends a blank line and its entry. */
  lemma AppendMessage(ms: seq<Message>, m: Message)
    requires ms != []
    ensures TranscriptText(ms + [m]) == TranscriptText(ms) + "\n\n" + Entry(m)
  {
    assert Entries(ms + [m]) == Entries(ms) + [Entry(m)];
    JoinSnoc(Entries(ms), Entry(m), Separator);
  }

  /** `split("\n\n")`: the pieces between the separators, scanning from the left. */
  function SplitBlankLines(s: string): (r: seq<string>)
    ensures |r| >= 1
    decreases |s|
  {
    if |s| >= 2 && s[0] == '\n' && s[1] == '\n' then [""] + SplitBlankLines(s[2..])
    else if s == [] then [""]
    else
      var rest := SplitBlankLines(s[1..]);
      [[s[0]] + rest[0]] + rest[1..]
  }

  lemma {:induction false} SplitWithoutNewline(s: string)
    requires '\n' !in s
    ensures SplitBlankLines(s) == [s]
    decreases |s|
  {
    if s != [] {
      assert s[0] in s;
      assert forall c :: c in s[1..] ==> c in s;
      SplitWithoutNewline(s[1..]);
      assert [s[0]] + s[1..] == s;
    }
  }

  lemma {:induction false} SplitAtSeparator(a: string, b: string)
    requires '\n' !in a
    ensures SplitBlankLines(a + "\n\n" + b) == [a] + SplitBlankLines(b)
    decreases |a|
  {
    var s := a + "\n\n" + b;
    if a == [] {
      assert s[2..] == b;
    } else {
      assert a[0] in a;
      assert forall c :: c in a[1..] ==> c in a;
      assert s[1..] == a[1..] + "\n\n" + b;
      SplitAtSeparator(a[1..], b);
      assert [a[0]] + a[1..] == a;
    }
  }

  lemma {:induction false} SplitJoin(parts: seq<string>)
    requires parts != []
    requires forall i :: 0 <= i < |parts| ==> '\n' !in parts[i]
    ensures SplitBlankLines(Join(parts, Separator)) == parts
    decreases |parts|
  {
    if |parts| == 1 {
      SplitWithoutNewline(parts[0]);
    } else {
      SplitJoin(parts[1..]);
      SplitAtSeparator(parts[0], Join(parts[1..], Separator));
    }
  }

  /** An entry has a line break only where its content has one. */
  lemma EntryWithoutNewline(m: Message)
    requires '\n' !in m.content
    ensures '\n' !in Entry(m)
  {
    var head := Label(m.sender) + ": ";
    var r := Entry(m);
    assert r == head + m.content;
    assert '\n' !in head;
  }

  /** When no message contains a line break, splitting the transcript at its blank lines
      gives back one entry per message, in order, each non-empty and starting with its
      sender's label. */
  lemma TranscriptSplitsIntoEntries(ms: seq<Message>)
    requires ms != []
    requires forall i :: 0 <= i < |ms| ==> '\n' !in ms[i].content
    ensures var pieces := SplitBlankLines(TranscriptText(ms));
      |pieces| == |ms| &&
      forall i :: 0 <= i < |ms| ==>
        pieces[i] == Label(ms[i].sender) + ": " + ms[i].content && pieces[i] != ""
  {
    var es := Entries(ms);
    forall i | 0 <= i < |es|
      ensures '\n' !in es[i]
    {
      EntryWithoutNewline(ms[i]);
    }
    SplitJoin(es);
  }
}
