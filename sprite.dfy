/**
 * The frame-index state machine of Sprite (src/sprite.hpp, src/sprite.cpp):
 * the current animation tag, the frame index and the frame timer. Texture
 * loading and drawing are not part of this model; the texture's size is a
 * field, and the clock read by should_advance_frame is a parameter.
 * frame_index is an int8_t in the source, so every store into it wraps to
 * eight bits; the 64-bit timer is unbounded here.
 */
module Sprites {
  /** An AnimationTag: the first and last frame of an animation; both are uint8_t. */
  datatype AnimationTag = AnimationTag(startFrame: nat, endFrame: nat)

  /** A tag as declared: { 0, 1 }. */
  const DEFAULT_ANIMATION_TAG: AnimationTag := AnimationTag(0, 1)

  /** The duration used for a frame that has none stored, in milliseconds. */
  const DEFAULT_FRAME_DURATION: int := 100

  /** Conversion to int8_t: the value modulo 256, in -128..127. */
  function ToInt8(v: int): (r: int)
    ensures -128 <= r < 128
    ensures (r - v) % 256 == 0
    ensures -128 <= v < 128 ==> r == v
  {
    (v + 128) % 256 - 128
  }

  /** The sprite's animation state. */
  datatype SpriteState = SpriteState(
    tags: map<string, AnimationTag>, defaultTag: AnimationTag, tag: AnimationTag,
    frameIndex: int, frameCount: int, frameWidth: int, frameHeight: int,
    frameDurations: seq<int>, frameTimer: int, lastTimeMs: int,
    textureWidth: int, textureHeight: int)

  /** A tag that lies within the frames: start <= end < frame count, all of it representable in int8_t. */
  predicate TagWithinFrames(s: SpriteState)
  {
    s.tag.startFrame <= s.tag.endFrame < s.frameCount < 128
  }

  /** get_width: the frame's width, or the texture's when no frame width is known. */
  function Width(s: SpriteState): (w: int)
    ensures s.frameWidth > 0 ==> w == s.frameWidth
    ensures s.frameWidth <= 0 ==> w == s.textureWidth
  {
    if s.frameWidth <= 0 then s.textureWidth else s.frameWidth
  }

  /** get_height: the frame's height, or the texture's when no frame height is known. */
  function Height(s: SpriteState): (h: int)
    ensures s.frameHeight > 0 ==> h == s.frameHeight
    ensures s.frameHeight <= 0 ==> h == s.textureHeight
  {
    if s.frameHeight <= 0 then s.textureHeight else s.frameHeight
  }

  /** reset_animation: back to the current tag's first frame, timer cleared. */
  function ResetAnimationSpec(s: SpriteState): (r: SpriteState)
    ensures r.frameTimer == 0
    ensures s.tag.startFrame < 128 ==> r.frameIndex == s.tag.startFrame
    ensures r == s.(frameIndex := r.frameIndex, frameTimer := 0)
  {
    s.(frameIndex := ToInt8(s.tag.startFrame), frameTimer := 0)
  }

  /** set_frame: the requested frame clamped into the frames (0 when there are none), timer cleared. */
  function SetFrameSpec(s: SpriteState, frame: int): (r: SpriteState)
    requires s.frameCount < 128
    ensures r.frameTimer == 0 && r == s.(frameIndex := r.frameIndex, frameTimer := 0)
    ensures 0 <= r.frameIndex && (s.frameCount > 0 ==> r.frameIndex < s.frameCount)
    ensures s.frameCount <= 0 ==> r.frameIndex == 0
    ensures 0 <= frame < s.frameCount ==> r.frameIndex == frame
    ensures frame >= s.frameCount > 0 ==> r.frameIndex == s.frameCount - 1
    ensures frame < 0 ==> r.frameIndex == 0
  {
    var f1 := if frame >= s.frameCount then s.frameCount - 1 else frame;
    var f2 := if f1 < 0 then 0 else f1;
    s.(frameIndex := ToInt8(f2), frameTimer := 0)
  }

  /** The outcome of should_advance_frame: whether to advance, and the new state. */
  datatype Advance = Advance(advance: bool, state: SpriteState)

  /** The duration of the frame at index i: the stored one, or 100 ms. */
  function FrameDuration(s: SpriteState, i: int): (d: int)
    requires 0 <= i
    ensures i < |s.frameDurations| ==> d == s.frameDurations[i]
    ensures i >= |s.frameDurations| ==> d == DEFAULT_FRAME_DURATION
  {
    if i < |s.frameDurations| then s.frameDurations[i] else DEFAULT_FRAME_DURATION
  }

  /** should_advance_frame, with the clock reading nowMs as a parameter. */
  function ShouldAdvanceSpec(s: SpriteState, nowMs: int): (r: Advance)
    ensures r.state.lastTimeMs == nowMs
    ensures r.advance ==> s.tag.endFrame != s.tag.startFrame && s.frameCount > 1 && 0 <= s.frameIndex < s.frameCount
    ensures r.state.frameCount == s.frameCount && r.state.tag == s.tag && r.state.tags == s.tags
  {
    var elapsed := if s.lastTimeMs != nowMs then nowMs - s.lastTimeMs else 0;
    var s1 := s.(lastTimeMs := nowMs);
    if s.tag.endFrame == s.tag.startFrame then
      Advance(false, s1.(frameIndex := ToInt8(s.tag.startFrame), frameTimer := 0))
    else if s.frameCount <= 1 then
      Advance(false, s1)
    else if s.frameIndex < 0 then
      Advance(false, s1.(frameIndex := ToInt8(if s.frameCount > 0 then s.frameCount - 1 else 0)))
    else if s.frameIndex >= s.frameCount then
      Advance(false, s1.(frameIndex := 0))
    else
      var duration := FrameDuration(s, s.frameIndex);
      var timer := s.frameTimer + elapsed;
      if timer >= duration then
        var t := timer - duration;
        Advance(true, s1.(frameTimer := if t >= duration then 0 else t))
      else
        Advance(false, s1.(frameTimer := timer))
  }

  /** A one-frame tag pins the index to the tag's start and never advances. */
  lemma OneFrameTagPins(s: SpriteState, nowMs: int)
    requires s.tag.endFrame == s.tag.startFrame < 128
    ensures !ShouldAdvanceSpec(s, nowMs).advance
    ensures ShouldAdvanceSpec(s, nowMs).state.frameIndex == s.tag.startFrame
    ensures ShouldAdvanceSpec(s, nowMs).state.frameTimer == 0
  {
  }

  /**
   * On a multi-frame tag with the index in range, the timer accumulates the
   * elapsed time; the frame advances exactly when it reaches the duration,
   * which is then subtracted, and the timer is cleared if it is still not
   * below the duration.
   */
  lemma TimerAccumulates(s: SpriteState, nowMs: int)
    requires s.tag.endFrame != s.tag.startFrame && s.frameCount > 1 && 0 <= s.frameIndex < s.frameCount
    ensures var d := FrameDuration(s, s.frameIndex);
      var t := s.frameTimer + (nowMs - s.lastTimeMs);
      var r := ShouldAdvanceSpec(s, nowMs);
      && (r.advance <==> t >= d)
      && (!r.advance ==> r.state.frameTimer == t)
      && (r.advance ==> r.state.frameTimer == if t - d >= d then 0 else t - d)
      && r.state.frameIndex == s.frameIndex
  {
  }

  /** With a positive duration and time that does not go backwards, the timer stays within [0, duration) once it is. */
  lemma TimerStaysBelowDuration(s: SpriteState, nowMs: int)
    requires s.tag.endFrame != s.tag.startFrame && s.frameCount > 1 && 0 <= s.frameIndex < s.frameCount
    requires FrameDuration(s, s.frameIndex) > 0 && nowMs >= s.lastTimeMs
    requires 0 <= s.frameTimer < FrameDuration(s, s.frameIndex)
    ensures 0 <= ShouldAdvanceSpec(s, nowMs).state.frameTimer < FrameDuration(s, s.frameIndex)
  {
    TimerAccumulates(s, nowMs);
  }

  /** animate: when the frame should advance, step it and wrap it into the tag. */
  function AnimateSpec(s: SpriteState, step: int, nowMs: int): (r: SpriteState)
    ensures s.frameCount <= 1 ==> r == s
    ensures r.tag == s.tag && r.frameCount == s.frameCount
  {
    if s.frameCount <= 1 then s
    else
      var a := ShouldAdvanceSpec(s, nowMs);
      if a.advance then
        var s1 := a.state;
        var i1 := ToInt8(s1.frameIndex + step);
        var i2 := if i1 > s1.tag.endFrame || i1 >= s1.frameCount then ToInt8(s1.tag.startFrame) else i1;
        var i3 := if i2 < s1.tag.startFrame || i2 < 0 then ToInt8(s1.tag.endFrame) else i2;
        s1.(frameIndex := i3)
      else a.state
  }

  /** Whatever the step, an advancing animation lands on a frame of the tag when the tag lies within the frames. */
  lemma AnimateStaysInTag(s: SpriteState, step: int, nowMs: int)
    requires TagWithinFrames(s)
    requires ShouldAdvanceSpec(s, nowMs).advance
    ensures s.tag.startFrame <= AnimateSpec(s, step, nowMs).frameIndex <= s.tag.endFrame
  {
  }

  /** Stepping forward from the tag's last frame wraps to its first, and backward from its first wraps to its last. */
  lemma AnimateWrapsAround(s: SpriteState, nowMs: int)
    requires TagWithinFrames(s)
    requires ShouldAdvanceSpec(s, nowMs).advance
    ensures s.frameIndex == s.tag.endFrame ==> AnimateSpec(s, 1, nowMs).frameIndex == s.tag.startFrame
    ensures s.frameIndex == s.tag.startFrame ==> AnimateSpec(s, -1, nowMs).frameIndex == s.tag.endFrame
    ensures s.tag.startFrame <= s.frameIndex < s.tag.endFrame ==> AnimateSpec(s, 1, nowMs).frameIndex == s.frameIndex + 1
  {
  }

  /** set_tag */
  function SetTagSpec(s: SpriteState, name: string): (r: SpriteState)
  {
    if name != [] then
      if name in s.tags then
        if s.tag != s.tags[name] then ResetAnimationSpec(s.(tag := s.tags[name])) else s
      else s
    else if s.tag != s.defaultTag then ResetAnimationSpec(s).(tag := s.defaultTag)
    else s
  }

  /**
   * An unknown name changes nothing; the tag already playing does not
   * restart; another known tag starts from its first frame; the empty name
   * switches to the default tag after resetting to the first frame of the
   * tag that was playing (src/sprite.cpp:407-411 resets before it switches).
   */
  lemma SetTagCases(s: SpriteState, name: string)
    requires s.tag.startFrame < 128
    requires name != [] && name in s.tags ==> s.tags[name].startFrame < 128
    ensures name != [] && name !in s.tags ==> SetTagSpec(s, name) == s
    ensures name != [] && name in s.tags && s.tags[name] == s.tag ==> SetTagSpec(s, name) == s
    ensures name != [] && name in s.tags && s.tags[name] != s.tag ==>
      SetTagSpec(s, name) == s.(tag := s.tags[name], frameIndex := s.tags[name].startFrame, frameTimer := 0)
    ensures name == [] && s.tag != s.defaultTag ==>
      SetTagSpec(s, name) == s.(tag := s.defaultTag, frameIndex := s.tag.startFrame, frameTimer := 0)
    ensures name == [] && s.tag == s.defaultTag ==> SetTagSpec(s, name) == s
  {
  }

  /** So the empty name does not start the default tag at its own first frame when the two tags start apart. */
  lemma EmptyTagKeepsOldStart(s: SpriteState)
    requires s.tag.startFrame < 128 && s.tag != s.defaultTag && s.tag.startFrame != s.defaultTag.startFrame
    ensures SetTagSpec(s, []).tag == s.defaultTag
    ensures SetTagSpec(s, []).frameIndex != s.defaultTag.startFrame
  {
    SetTagCases(s, []);
  }

  class Sprite {
    var tags: map<string, AnimationTag>
    var defaultTag: AnimationTag
    var tag: AnimationTag
    var frameIndex: int
    var frameCount: int
    var frameWidth: int
    var frameHeight: int
    var frameDurations: seq<int>
    var frameTimer: int
    var lastTimeMs: int
    var textureWidth: int
    var textureHeight: int

    function View(): SpriteState
      reads this
    {
      SpriteState(tags, defaultTag, tag, frameIndex, frameCount, frameWidth, frameHeight,
                  frameDurations, frameTimer, lastTimeMs, textureWidth, textureHeight)
    }

    /**
     * Sprite() = default: no frames and no tags. Both the default tag and the
     * current tag take AnimationTag's member initialisers { 0, 1 }.
     */
    constructor ()
      ensures View() == SpriteState(map[], DEFAULT_ANIMATION_TAG, DEFAULT_ANIMATION_TAG, 0, 0, 0, 0, [], 0, 0, 0, 0)
    {
      tags, defaultTag, tag := map[], DEFAULT_ANIMATION_TAG, DEFAULT_ANIMATION_TAG;
      frameIndex, frameCount, frameWidth, frameHeight := 0, 0, 0, 0;
      frameDurations, frameTimer, lastTimeMs := [], 0, 0;
      textureWidth, textureHeight := 0, 0;
    }

    function GetWidth(): (w: int)
      reads this
      ensures w == Width(View())
    {
      if frameWidth <= 0 then textureWidth else frameWidth
    }

    function GetHeight(): (h: int)
      reads this
      ensures h == Height(View())
    {
      if frameHeight <= 0 then textureHeight else frameHeight
    }

    method ResetAnimation()
      modifies this
      ensures View() == ResetAnimationSpec(old(View()))
    {
      frameIndex := ToInt8(tag.startFrame);
      frameTimer := 0;
    }

    method SetFrame(frame: int)
      requires frameCount < 128
      modifies this
      ensures View() == SetFrameSpec(old(View()), frame)
    {
      var f := frame;
      if f >= frameCount {
        f := frameCount - 1;
      }
      if f < 0 {
        f := 0;
      }
      frameIndex := ToInt8(f);
      frameTimer := 0;
    }

    /** set_frame_relative: set_frame counted from the current tag's first frame. */
    method SetFrameRelative(frame: int)
      requires frameCount < 128
      modifies this
      ensures View() == SetFrameSpec(old(View()), frame + old(tag.startFrame))
    {
      SetFrame(frame + tag.startFrame);
    }

    method ShouldAdvanceFrame(nowMs: int) returns (advance: bool)
      modifies this
      ensures Advance(advance, View()) == ShouldAdvanceSpec(old(View()), nowMs)
    {
      var elapsed := if lastTimeMs != nowMs then nowMs - lastTimeMs else 0;
      lastTimeMs := nowMs;
      if tag.endFrame == tag.startFrame {
        frameIndex := ToInt8(tag.startFrame);
        frameTimer := 0;
        return false;
      }
      if frameCount <= 1 {
        return false;
      }
      if frameIndex < 0 {
        frameIndex := ToInt8(if frameCount > 0 then frameCount - 1 else 0);
        return false;
      }
      if frameIndex >= frameCount {
        frameIndex := 0;
        return false;
      }
      var duration := if frameIndex < |frameDurations| then frameDurations[frameIndex] else DEFAULT_FRAME_DURATION;
      frameTimer := frameTimer + elapsed;
      if frameTimer >= duration {
        frameTimer := frameTimer - duration;
        if frameTimer >= duration {
          frameTimer := 0;
        }
        return true;
      }
      return false;
    }

    method Animate(step: int, nowMs: int)
      modifies this
      ensures View() == AnimateSpec(old(View()), step, nowMs)
    {
      if frameCount <= 1 {
        return;
      }
      var advance := ShouldAdvanceFrame(nowMs);
      if advance {
        frameIndex := ToInt8(frameIndex + step);
        if frameIndex > tag.endFrame || frameIndex >= frameCount {
          frameIndex := ToInt8(tag.startFrame);
        }
        if frameIndex < tag.startFrame || frameIndex < 0 {
          frameIndex := ToInt8(tag.endFrame);
        }
      }
    }

    method SetTag(name: string)
      modifies this
      ensures View() == SetTagSpec(old(View()), name)
    {
      if name != [] {
        if name in tags {
          if tag != tags[name] {
            tag := tags[name];
            ResetAnimation();
          }
        }
      } else {
        if tag != defaultTag {
          ResetAnimation();
          tag := defaultTag;
        }
      }
    }
  }
}
