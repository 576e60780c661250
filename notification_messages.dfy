/** The fixed pool of standard reminder bodies and the random pick from it
    (void./Shared/Constants/NotificationMessages.swift). */
module NotificationMessages {
  import opened Basics

  /** The ten standard messages, verbatim. As a `const` no operation can change it. */
  const StandardPool: seq<string> := [
    "It’s giving productive. Do the thing. ✨",
    "Manifesting this habit for you.",
    "Don't let the capitalism win. Take care of yourself.",
    "Vibe check: You haven't done this yet.",
    "Be the main character of your life today.",
    "Touch grass? Maybe later. Do this first.",
    "Consistency is your love language.",
    "POV: You just crushed your habit.",
    "Sending positive energy (and a reminder).",
    "Not to be toxic, but do you want to keep that streak?"
  ]

  /** What `randomVibe` falls back to when the pool has no element. */
  const Fallback: string := "Do the thing."

  /** The pool has exactly ten entries, none of them empty and none equal to
      the fallback text. */
  lemma StandardPoolShape()
    ensures |StandardPool| == 10
    ensures forall m :: m in StandardPool ==> |m| > 0
    ensures Fallback !in StandardPool
  {
  }

  /** `randomElement()`: an arbitrary element, or none when the collection is
      empty. Which element is picked is left open. */
  method RandomElement<T>(s: seq<T>) returns (r: Option<T>)
    ensures r.None? <==> s == []
    ensures r.Some? ==> r.value in s
  {
    if s == [] {
      r := None;
    } else {
      var i :| 0 <= i < |s|;
      r := Some(s[i]);
    }
  }

  /** `randomVibe()`: some standard message. The pool is not empty, so the
      fallback is never returned. */
  method RandomVibe() returns (r: string)
    ensures r in StandardPool
    ensures r != Fallback
  {
    var pick := RandomElement(StandardPool);
    r := match pick
      case Some(m) => m
      case None => Fallback;
    StandardPoolShape();
  }
}
