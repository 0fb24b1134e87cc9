// The companion's greeting of screens/IntroductionScreen.tsx: two messages
// paged with a Next arrow that stops on the last, then "Let's Begin!".
module Introduction {
  import opened Common
  import opened Content

  /** The two messages; the second names the companion. */
  function Messages(name: string): (m: seq<string>)
    ensures |m| == 2 && m[0] == "Hello!"
    ensures |m[1]| > 4 + |name| && m[1][..4] == "I'm " && m[1][4..4 + |name|] == name
  {
    ["Hello!", "I'm " + name + ", and I'm here to help you " + "with your learning journey."]
  }

  /** `Math.min(prev + 1, messages.length - 1)` for `count` messages. */
  function NextIndex(index: nat, count: nat): (r: nat)
    requires count > 0
    ensures index < count - 1 ==> r == index + 1
    ensures index >= count - 1 ==> r == count - 1
  {
    Min(index + 1, count - 1)
  }

  /** The footer: the Next arrow, or the button that completes the introduction. */
  datatype Footer = NextArrow | BeginButton

  function FooterFor(index: nat, count: nat): (f: Footer)
    ensures f == NextArrow <==> index < count - 1
  {
    if index < count - 1 then NextArrow else BeginButton
  }

  /** The index after `k` presses of Next from `index`. */
  function Pages(index: nat, count: nat, k: nat): nat
    requires count > 0
    decreases k
  {
    if k == 0 then index else Pages(NextIndex(index, count), count, k - 1)
  }

  /** Next walks the messages one at a time and stays on the last: after `k`
      presses from the first message the index is `min(k, count - 1)`. */
  lemma {:induction false} PagesClamp(index: nat, count: nat, k: nat)
    requires 0 < count && index < count
    ensures Pages(index, count, k) == Min(index + k, count - 1)
    decreases k
  {
    if k > 0 {
      PagesClamp(NextIndex(index, count), count, k - 1);
    }
  }

  /** On the last message Next changes nothing, and the footer offers only
      the begin button. */
  lemma LastMessageIsFinal(count: nat)
    requires count > 0
    ensures NextIndex(count - 1, count) == count - 1
    ensures FooterFor(count - 1, count) == BeginButton
  {
  }

  class Greeting {
    const messages: seq<string>
    var messageIndex: nat

    /** The index names a message. */
    ghost predicate Valid()
      reads this
    {
      |messages| == 2 && messageIndex < |messages|
    }

    constructor (avatar: AvatarData)
      ensures messages == Messages(avatar.name) && messageIndex == 0 && Valid()
    {
      messages := Messages(avatar.name);
      messageIndex := 0;
    }

    /** The message on screen. */
    function Shown(): string
      requires Valid()
      reads this
    {
      messages[messageIndex]
    }

    /** The Next arrow, offered before the last message. */
    method Next()
      requires Valid() && FooterFor(messageIndex, |messages|) == NextArrow
      modifies this
      ensures Valid() && messageIndex == NextIndex(old(messageIndex), |messages|)
    {
      messageIndex := Min(messageIndex + 1, |messages| - 1);
    }
  }
}
