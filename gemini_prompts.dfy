/** `detectEditingOperation` (backend/prompts/geminiPrompts.js): a priority-ordered keyword
    classifier over the lower-cased user message. */
module GeminiPrompts {
  import opened Strings

  /** The ten labels the classifier returns. */
  datatype EditOperation =
    | CutClip | TrimClip | JoinClips | DuplicateClip
    | ChangeText | AddText | ChangeColor | AdjustTiming | RemoveElement
    | General

  /** `detectEditingOperation`: the first rule whose keywords occur in the lower-cased message. */
  function DetectEditingOperation(userMessage: string): EditOperation
  {
    var message := ToLower(userMessage);
    if Contains(message, "cut") || Contains(message, "split") then CutClip
    else if Contains(message, "trim") || Contains(message, "shorten") ||
            (Contains(message, "remove") &&
             (Contains(message, "seconds") || Contains(message, "first") || Contains(message, "last"))) then TrimClip
    else if Contains(message, "join") || Contains(message, "merge") || Contains(message, "combine") then JoinClips
    else if Contains(message, "duplicate") || Contains(message, "copy") then DuplicateClip
    else if Contains(message, "change") && Contains(message, "text") then ChangeText
    else if Contains(message, "add") && (Contains(message, "text") || Contains(message, "overlay")) then AddText
    else if Contains(message, "color") || Contains(message, "red") || Contains(message, "blue") ||
            Contains(message, "green") then ChangeColor
    else if Contains(message, "move") || Contains(message, "timing") || Contains(message, "later") ||
            Contains(message, "earlier") then AdjustTiming
    else if Contains(message, "remove") || Contains(message, "delete") then RemoveElement
    else General
  }

  // ---- A rule table, independent of the if-chain ----

  /** Whether a keyword of the given word list occurs in `m`. */
  predicate AnyOf(m: string, words: seq<string>)
  {
    exists k :: 0 <= k < |words| && Contains(m, words[k])
  }

  /** The condition each label's rule tests on the lower-cased message. */
  predicate Rule(op: EditOperation, m: string)
  {
    match op
    case CutClip => AnyOf(m, ["cut", "split"])
    case TrimClip => AnyOf(m, ["trim", "shorten"]) || (Contains(m, "remove") && AnyOf(m, ["seconds", "first", "last"]))
    case JoinClips => AnyOf(m, ["join", "merge", "combine"])
    case DuplicateClip => AnyOf(m, ["duplicate", "copy"])
    case ChangeText => Contains(m, "change") && Contains(m, "text")
    case AddText => Contains(m, "add") && AnyOf(m, ["text", "overlay"])
    case ChangeColor => AnyOf(m, ["color", "red", "blue", "green"])
    case AdjustTiming => AnyOf(m, ["move", "timing", "later", "earlier"])
    case RemoveElement => AnyOf(m, ["remove", "delete"])
    case General => true
  }

  /** The order in which the rules are tried; `General` is the fallback after all of them. */
  const Priority: seq<EditOperation> :=
    [CutClip, TrimClip, JoinClips, DuplicateClip, ChangeText, AddText, ChangeColor, AdjustTiming, RemoveElement]

  /** The position of a label in the priority list. */
  function Rank(op: EditOperation): (k: nat)
    ensures k <= |Priority| && (op != General ==> k < |Priority| && Priority[k] == op)
  {
    match op
    case CutClip => 0
    case TrimClip => 1
    case JoinClips => 2
    case DuplicateClip => 3
    case ChangeText => 4
    case AddText => 5
    case ChangeColor => 6
    case AdjustTiming => 7
    case RemoveElement => 8
    case General => 9
  }

  lemma AnyOfTwo(m: string, a: string, b: string)
    ensures AnyOf(m, [a, b]) <==> Contains(m, a) || Contains(m, b)
  {
    var w := [a, b];
    assert w[0] == a && w[1] == b;
  }

  lemma AnyOfThree(m: string, a: string, b: string, c: string)
    ensures AnyOf(m, [a, b, c]) <==> Contains(m, a) || Contains(m, b) || Contains(m, c)
  {
    var w := [a, b, c];
    assert w[0] == a && w[1] == b && w[2] == c;
  }

  lemma AnyOfFour(m: string, a: string, b: string, c: string, d: string)
    ensures AnyOf(m, [a, b, c, d]) <==> Contains(m, a) || Contains(m, b) || Contains(m, c) || Contains(m, d)
  {
    var w := [a, b, c, d];
    assert w[0] == a && w[1] == b && w[2] == c && w[3] == d;
  }

  /** Each rule of the table holds exactly when one of its keywords occurs in the message. */
  lemma RulesAsKeywords(m: string)
    ensures Rule(CutClip, m) <==> Contains(m, "cut") || Contains(m, "split")
    ensures Rule(TrimClip, m) <==>
              (Contains(m, "trim") || Contains(m, "shorten") ||
               (Contains(m, "remove") && (Contains(m, "seconds") || Contains(m, "first") || Contains(m, "last"))))
    ensures Rule(JoinClips, m) <==> Contains(m, "join") || Contains(m, "merge") || Contains(m, "combine")
    ensures Rule(DuplicateClip, m) <==> Contains(m, "duplicate") || Contains(m, "copy")
    ensures Rule(AddText, m) <==> Contains(m, "add") && (Contains(m, "text") || Contains(m, "overlay"))
    ensures Rule(ChangeColor, m) <==>
              Contains(m, "color") || Contains(m, "red") || Contains(m, "blue") || Contains(m, "green")
    ensures Rule(AdjustTiming, m) <==>
              Contains(m, "move") || Contains(m, "timing") || Contains(m, "later") || Contains(m, "earlier")
    ensures Rule(RemoveElement, m) <==> Contains(m, "remove") || Contains(m, "delete")
  {
    AnyOfTwo(m, "cut", "split");
    AnyOfTwo(m, "trim", "shorten");
    AnyOfThree(m, "seconds", "first", "last");
    AnyOfThree(m, "join", "merge", "combine");
    AnyOfTwo(m, "duplicate", "copy");
    AnyOfTwo(m, "text", "overlay");
    AnyOfFour(m, "color", "red", "blue", "green");
    AnyOfFour(m, "move", "timing", "later", "earlier");
    AnyOfTwo(m, "remove", "delete");
  }

  /** The classifier returns the first label of the priority list whose rule holds, or `General`
      when none does. */
  lemma FirstMatchingRule(userMessage: string)
    ensures var m := ToLower(userMessage);
            var op := DetectEditingOperation(userMessage);
            (op == General <==> forall k :: 0 <= k < |Priority| ==> !Rule(Priority[k], m)) &&
            (op != General ==> exists k :: 0 <= k < |Priority| && Priority[k] == op && Rule(op, m) &&
                                 forall k' :: 0 <= k' < k ==> !Rule(Priority[k'], m))
  {
    var m := ToLower(userMessage);
    RulesAsKeywords(m);
    var op := DetectEditingOperation(userMessage);
    if op == General {
      forall k | 0 <= k < |Priority| ensures !Rule(Priority[k], m) {
      }
    } else {
      var k := Rank(op);
      assert Rule(op, m);
      forall k' | 0 <= k' < k ensures !Rule(Priority[k'], m) {
      }
    }
  }

  /** Classification ignores letter case: the message is lower-cased first. */
  lemma CaseInsensitive(userMessage: string)
    ensures DetectEditingOperation(ToLower(userMessage)) == DetectEditingOperation(userMessage)
  {
    ToLowerIdempotent(userMessage);
  }

  /** 'cut' or 'split' anywhere wins over every other keyword. */
  lemma CutWins(userMessage: string)
    requires Contains(ToLower(userMessage), "cut") || Contains(ToLower(userMessage), "split")
    ensures DetectEditingOperation(userMessage) == CutClip
  {
  }

  /** 'remove' with 'seconds', 'first' or 'last' is a trim (absent a cut); a 'remove' or 'delete'
      message is a removal only when no earlier rule holds. */
  lemma RemoveRules(userMessage: string)
    ensures var m := ToLower(userMessage);
      (!Rule(CutClip, m) && Contains(m, "remove") && AnyOf(m, ["seconds", "first", "last"]) ==>
         DetectEditingOperation(userMessage) == TrimClip) &&
      (DetectEditingOperation(userMessage) == RemoveElement <==>
         AnyOf(m, ["remove", "delete"]) && forall k :: 0 <= k < 8 ==> !Rule(Priority[k], m))
  {
    FirstMatchingRule(userMessage);
  }

  /** A join keyword beats the duplicate, text, colour, timing and removal rules. */
  lemma JoinBeforeLaterRules(userMessage: string)
    requires !Rule(CutClip, ToLower(userMessage)) && !Rule(TrimClip, ToLower(userMessage))
    requires Rule(JoinClips, ToLower(userMessage))
    ensures DetectEditingOperation(userMessage) == JoinClips
  {
    FirstMatchingRule(userMessage);
  }
}
