/**
 * The client's error messages: a fixed table of ten, one picked at random,
 * and on a narrow (mobile) window only the text before the first `.`.
 * The window width is passed in instead of being read from `window`.
 */
module ErrorMessages {
  import opened RandomDraw

  /** The `errorMessages` table. */
  const Messages: seq<string> := [
    "Oops! Something went sideways. We're calling in the experts \U{1F6E0}\U{FE0F}",
    "Looks like the app needs a quick coffee break. Try refreshing! \U{2615}",
    "Error 404: The vibe you ordered is temporarily unavailable.",
    "Oh no, we tripped over a wire! Don't worry, we're back on it. \U{1F680}",
    // written in two parts, which lets the verifier see that it holds no '.'
    "This isn't supposed to happen\U{2026} " + "Try again in a bit! \U{1F643}",
    "Server's feeling introverted right now. Back soon!",
    "Glitch in the Matrix detected. Hold tight! \U{1F916}",
    "Our bad! It's not you, it's us. (We'll fix it.)",
    "We're chasing down the bug. It's fast, but we're faster! \U{1F41E}",
    "The app's on a timeout. We promise it'll behave soon. \U{23F3}"
  ]

  /** The widest window that still counts as mobile. */
  const MobileMaxWidth: int := 768

  /** `String.prototype.split(sep)` with a one-character separator. */
  function Split(s: string, sep: char): (pieces: seq<string>)
    ensures |pieces| >= 1
    ensures forall p :: p in pieces ==> sep !in p
  {
    if s == [] then [[]]
    else if s[0] == sep then [[]] + Split(s[1..], sep)
    else
      var rest := Split(s[1..], sep);
      [[s[0]] + rest[0]] + rest[1..]
  }

  /** `Array.prototype.join(sep)`, the inverse of `Split`. */
  function Join(pieces: seq<string>, sep: char): string
    requires |pieces| >= 1
  {
    if |pieces| == 1 then pieces[0] else pieces[0] + [sep] + Join(pieces[1..], sep)
  }

  /** Splitting loses nothing: joining the pieces gives back the string. */
  lemma {:induction false} JoinSplit(s: string, sep: char)
    ensures Join(Split(s, sep), sep) == s
  {
    if s != [] {
      JoinSplit(s[1..], sep);
      var rest := Split(s[1..], sep);
      if s[0] != sep {
        if |rest| == 1 {
          assert Split(s, sep) == [[s[0]] + rest[0]];
        } else {
          var pieces := Split(s, sep);
          assert pieces[1..] == rest[1..];
        }
      }
    }
  }

  /**
   * The first piece is the text before the first separator: a prefix of the
   * string without the separator, followed by the separator unless it is the
   * whole string.
   */
  lemma {:induction false} FirstPieceIsPrefix(s: string, sep: char)
    ensures Split(s, sep)[0] <= s
    ensures |Split(s, sep)[0]| < |s| ==> s[|Split(s, sep)[0]|] == sep
    ensures sep !in s ==> Split(s, sep)[0] == s
  {
    if s != [] && s[0] != sep {
      FirstPieceIsPrefix(s[1..], sep);
      assert s == [s[0]] + s[1..];
    }
  }

  /** `getRandomErrorMessage`: the message at `Math.floor(Math.random() * 10)`. */
  function GetRandomErrorMessage(draw: Draw): (message: string)
    requires ValidDraw(draw)
    ensures message in Messages
  {
    Messages[ScaledIndex(draw, |Messages|)]
  }

  /** `isMobile`: a window at most 768 pixels wide, 768 included. */
  predicate IsMobile(innerWidth: int) {
    innerWidth <= MobileMaxWidth
  }

  /** The message shown for a message already chosen. */
  function Shorten(message: string, innerWidth: int): (shown: string)
    ensures !IsMobile(innerWidth) ==> shown == message
    ensures IsMobile(innerWidth) ==> shown <= message && '.' !in shown
    ensures IsMobile(innerWidth) && |shown| < |message| ==> message[|shown|] == '.'
    ensures '.' !in message ==> shown == message
  {
    FirstPieceIsPrefix(message, '.');
    if IsMobile(innerWidth) then Split(message, '.')[0] else message
  }

  /**
   * `getErrorMessage`: one of the ten messages, cut on a mobile window to the
   * text before its first `.`, and never longer than the desktop text.
   */
  function GetErrorMessage(draw: Draw, innerWidth: int): (shown: string)
    requires ValidDraw(draw)
    ensures !IsMobile(innerWidth) ==> shown == GetRandomErrorMessage(draw)
    ensures IsMobile(innerWidth) ==> shown <= GetRandomErrorMessage(draw) && '.' !in shown
    ensures exists m :: m in Messages && shown <= m
  {
    Shorten(GetRandomErrorMessage(draw), innerWidth)
  }

  /** The fifth message ends its first sentence with `…`, not `.`, so mobile shows it whole. */
  lemma EllipsisMessageShownWhole(innerWidth: int)
    ensures Shorten(Messages[4], innerWidth) == Messages[4]
  {
  }

  /** For the same draw, the mobile text is never longer than the desktop text. */
  lemma MobileNeverLonger(draw: Draw, mobileWidth: int, desktopWidth: int)
    requires ValidDraw(draw) && IsMobile(mobileWidth) && !IsMobile(desktopWidth)
    ensures |GetErrorMessage(draw, mobileWidth)| <= |GetErrorMessage(draw, desktopWidth)|
  {
  }
}
