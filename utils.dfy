/** The name lookup shared by every operation, and the rule that reads a yes/no answer. */
module Utils {
  import opened Options
  import opened Strings
  import opened Documents

  /** The index of the first entry named `name`, or -1: entries without a name never match. */
  function IndexOfName(items: seq<Entry>, name: string): (i: int)
    ensures -1 <= i < |items|
    ensures i == -1 <==> !Declares(items, name)
    ensures 0 <= i ==> items[i].name == Some(name)
    ensures forall j :: 0 <= j < i ==> items[j].name != Some(name)
  {
    if |items| == 0 then -1
    else if items[0].name == Some(name) then 0
    else
      var k := IndexOfName(items[1..], name);
      assert forall j :: 0 < j < |items| ==> items[j] == items[1..][j - 1];
      if k == -1 then -1 else k + 1
  }

  /** The first index carrying the name is the one `IndexOfName` finds. */
  lemma IndexOfNameIs(items: seq<Entry>, name: string, i: int)
    requires 0 <= i < |items| && items[i].name == Some(name)
    requires forall j :: 0 <= j < i ==> items[j].name != Some(name)
    ensures IndexOfName(items, name) == i
  {
    assert Declares(items, name);
  }

  /** `find_item_by_name`: a linear scan that stops at the first match and leaves the list as it is. */
  method FindItemByName(itemList: seq<Entry>, name: string) returns (index: int, item: Option<Entry>)
    ensures index == IndexOfName(itemList, name)
    ensures item == if 0 <= index then Some(itemList[index]) else None
  {
    for i := 0 to |itemList|
      invariant forall j :: 0 <= j < i ==> itemList[j].name != Some(name)
    {
      if itemList[i].name == Some(name) {
        return i, Some(itemList[i]);
      }
    }
    return -1, None;
  }

  /** The answer rule of `prompt_for_override`: the response, lowercased and stripped, is "y" or "yes". */
  function IsAffirmative(response: string): bool {
    var r := Strip(Lower(response));
    r == "y" || r == "yes"
  }

  lemma LowerOfConcat(a: string, b: string)
    ensures Lower(a + b) == Lower(a) + Lower(b)
  {
  }

  lemma LowerKeepsSpace(s: string)
    ensures AllSpace(s) ==> AllSpace(Lower(s))
    ensures forall i :: 0 <= i < |s| && !IsSpace(s[i]) ==> !IsSpace(Lower(s)[i])
  {
  }

  /**
   * An answer is whitespace, a word, then whitespace; it confirms exactly when
   * the word, lowercased, is "y" or "yes". In particular the empty answer declines.
   */
  lemma AnswerRule(pre: string, word: string, post: string)
    requires AllSpace(pre) && AllSpace(post)
    requires word == [] || (!IsSpace(word[0]) && !IsSpace(word[|word| - 1]))
    ensures IsAffirmative(pre + word + post) <==> Lower(word) == "y" || Lower(word) == "yes"
  {
    LowerOfConcat(pre + word, post);
    LowerOfConcat(pre, word);
    LowerKeepsSpace(pre);
    LowerKeepsSpace(post);
    LowerKeepsSpace(word);
    StripOfPadded(Lower(pre), Lower(word), Lower(post));
  }

  /** The words that lowercase to "y" or "yes": each letter in either case. */
  lemma LowerIsYes(w: string)
    ensures Lower(w) == "y" <==> w == "y" || w == "Y"
    ensures Lower(w) == "yes" <==>
      |w| == 3 && (w[0] == 'y' || w[0] == 'Y') && (w[1] == 'e' || w[1] == 'E') && (w[2] == 's' || w[2] == 'S')
  {
    LowerShape(w);
  }

  /** The answers that confirm: "y" or "yes" in any mix of cases, with any whitespace around it. */
  lemma ConfirmingAnswers(pre: string, word: string, post: string)
    requires AllSpace(pre) && AllSpace(post)
    requires word == [] || (!IsSpace(word[0]) && !IsSpace(word[|word| - 1]))
    ensures IsAffirmative(pre + word + post) <==>
      word == "y" || word == "Y" ||
      (|word| == 3 && (word[0] == 'y' || word[0] == 'Y') && (word[1] == 'e' || word[1] == 'E') && (word[2] == 's' || word[2] == 'S'))
  {
    AnswerRule(pre, word, post);
    LowerIsYes(word);
  }

  /** `prompt_for_override` with the typed response supplied by `respond(itemType, name)`. */
  function PromptForOverride(respond: (string, string) -> string, itemType: string, name: string): bool {
    IsAffirmative(respond(itemType, name))
  }
}
