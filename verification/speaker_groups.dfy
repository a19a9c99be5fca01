/**
 * The transcription view's grouping of recognised words into speaker turns:
 * consecutive words from one speaker become one group whose text is their
 * words joined by single spaces.
 */
module SpeakerGroups {
  import opened Wrappers
  import opened Text

  /** A recognised word; its `speakerTag` may be absent. */
  datatype Word = Word(word: string, speakerTag: Option<int>)

  datatype Group = Group(speakerId: int, text: string)

  /** `word.speakerTag || 0`: an absent tag, like a zero one, is speaker 0. */
  function SpeakerOf(w: Word): int {
    w.speakerTag.GetOr(0)
  }

  function Words(ws: seq<Word>): (r: seq<string>)
    ensures |r| == |ws|
  {
    if ws == [] then [] else [ws[0].word] + Words(ws[1..])
  }

  function Texts(gs: seq<Group>): (r: seq<string>)
    ensures |r| == |gs|
  {
    if gs == [] then [] else [gs[0].text] + Texts(gs[1..])
  }

  /** Neighbouring groups belong to different speakers. */
  predicate Alternating(gs: seq<Group>) {
    forall k :: 0 <= k < |gs| - 1 ==> gs[k].speakerId != gs[k + 1].speakerId
  }

  /** Puts word `w` in front of the turns `gs` of the words after it. */
  function Prepend(w: Word, gs: seq<Group>): seq<Group> {
    if gs != [] && gs[0].speakerId == SpeakerOf(w) then [Group(gs[0].speakerId, w.word + " " + gs[0].text)] + gs[1..]
    else [Group(SpeakerOf(w), w.word)] + gs
  }

  /**
   * The speaker turns, built from the back: the maximal runs of consecutive
   * words with one speaker, each run's words joined by spaces.
   */
  function Turns(ws: seq<Word>): (gs: seq<Group>)
    ensures gs == [] <==> ws == []
    ensures |gs| <= |ws|
    ensures ws != [] ==> gs[0].speakerId == SpeakerOf(ws[0])
    ensures Alternating(gs)
    ensures Join(Texts(gs), " ") == Join(Words(ws), " ")
    decreases |ws|
  {
    if ws == [] then []
    else
      var rest := Turns(ws[1..]);
      var gs := Prepend(ws[0], rest);
      assert Join(Texts(gs), " ") == Join(Words(ws), " ") by {
        assert Words(ws) == [ws[0].word] + Words(ws[1..]);
        if rest != [] && rest[0].speakerId == SpeakerOf(ws[0]) {
          assert Texts(gs) == [ws[0].word + " " + rest[0].text] + Texts(rest[1..]);
          assert Texts(rest) == [rest[0].text] + Texts(rest[1..]);
          JoinGlued(ws[0].word, rest[0].text, Texts(rest[1..]), " ");
        } else {
          assert Texts(gs) == [ws[0].word] + Texts(rest);
        }
      }
      gs
  }

  /** One step of the loop: word `w` joins the last group if it has `w`'s speaker, else opens a new one. */
  function Extend(gs: seq<Group>, w: Word): seq<Group> {
    if gs != [] && gs[|gs| - 1].speakerId == SpeakerOf(w) then
      gs[..|gs| - 1] + [Group(SpeakerOf(w), gs[|gs| - 1].text + " " + w.word)]
    else gs + [Group(SpeakerOf(w), w.word)]
  }

  lemma PrependExtend(a: Word, gs: seq<Group>, w: Word)
    ensures Prepend(a, Extend(gs, w)) == Extend(Prepend(a, gs), w)
  {
    if gs == [] {
    } else if |gs| == 1 {
      var g := gs[0];
      if g.speakerId == SpeakerOf(w) && g.speakerId == SpeakerOf(a) {
        assert a.word + " " + (g.text + " " + w.word) == (a.word + " " + g.text) + " " + w.word;
      }
    } else {
      var e := Extend(gs, w);
      assert e[0] == gs[0];
      if gs[0].speakerId == SpeakerOf(a) {
        assert e[1..] == Extend(gs[1..], w);
        assert Prepend(a, gs)[1..] == gs[1..];
      } else {
        assert Prepend(a, gs)[1..] == gs;
      }
    }
  }

  /** Building the turns from the back agrees with the loop's building them from the front. */
  lemma {:induction false} TurnsSnoc(ws: seq<Word>, w: Word)
    ensures Turns(ws + [w]) == Extend(Turns(ws), w)
    decreases |ws|
  {
    if ws == [] {
      assert [w][1..] == [];
    } else {
      assert (ws + [w])[1..] == ws[1..] + [w];
      TurnsSnoc(ws[1..], w);
      PrependExtend(ws[0], Turns(ws[1..]), w);
    }
  }

  /** The groups pushed so far, plus the open one. */
  function Close(groups: seq<Group>, current: Option<Group>): seq<Group> {
    if current.Some? then groups + [current.value] else groups
  }

  /** A word of another speaker closes the open group and opens its own. */
  lemma OpenExtends(groups: seq<Group>, current: Option<Group>, w: Word)
    requires current.None? ==> groups == []
    requires current.None? || current.value.speakerId != SpeakerOf(w)
    ensures Close(Close(groups, current), Some(Group(SpeakerOf(w), w.word))) == Extend(Close(groups, current), w)
  {
  }

  /** A word of the open group's speaker is appended to its text. */
  lemma JoinExtends(groups: seq<Group>, g: Group, w: Word)
    requires g.speakerId == SpeakerOf(w)
    ensures Close(groups, Some(g.(text := g.text + " " + w.word))) == Extend(Close(groups, Some(g)), w)
  {
    assert (groups + [g])[..|groups|] == groups;
  }

  /** `groupBySpeaker(words)` */
  method GroupBySpeaker(words: seq<Word>) returns (groups: seq<Group>)
    ensures groups == Turns(words)
    ensures words == [] ==> groups == []
    ensures |groups| <= |words|
    ensures Alternating(groups)
    ensures Join(Texts(groups), " ") == Join(Words(words), " ")
  {
    groups := [];
    var current: Option<Group> := None;
    for i := 0 to |words|
      invariant current.None? <==> i == 0
      invariant Close(groups, current) == Turns(words[..i])
    {
      var w := words[i];
      var speakerId := SpeakerOf(w);
      if current.None? || current.value.speakerId != speakerId {
        OpenExtends(groups, current, w);
        if current.Some? {
          groups := groups + [current.value];
        }
        current := Some(Group(speakerId, w.word));
      } else {
        JoinExtends(groups, current.value, w);
        current := Some(current.value.(text := current.value.text + " " + w.word));
      }
      TurnsSnoc(words[..i], w);
      assert words[..i + 1] == words[..i] + [w];
    }
    groups := Close(groups, current);
    assert words[..|words|] == words;
  }
}
