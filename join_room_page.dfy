/**
 * The join-by-code page: what the code field keeps of what is typed, and
 * the submit handler that hands the field to the join hook.
 */
module JoinPage {
  import opened Common
  import opened RealtimeDatabase
  import opened RoomCode

  /** The characters of `s` that are upper-case letters or digits, in order. */
  function KeepCodeChars(s: string): (t: string)
    ensures |t| <= |s|
    ensures forall i :: 0 <= i < |t| ==> IsCodeChar(t[i])
  {
    if s == [] then []
    else (if IsCodeChar(s[0]) then [s[0]] else []) + KeepCodeChars(s[1..])
  }

  /**
   * The field's new value: `value.toUpperCase().replace(/[^A-Z0-9]/g, '')`,
   * never longer than what was typed and made of A–Z and 0–9 only.
   */
  function Sanitize(value: string): (t: string)
    ensures |t| <= |value|
    ensures forall i :: 0 <= i < |t| ==> IsCodeChar(t[i])
  {
    KeepCodeChars(ToUpper(value))
  }

  /** A letter of either case or a digit: what survives sanitising. */
  predicate IsLetterOrDigit(c: char) {
    'a' <= c <= 'z' || 'A' <= c <= 'Z' || '0' <= c <= '9'
  }

  lemma UpperKeepsExactlyLettersAndDigits(c: char)
    ensures IsCodeChar(UpperChar(c)) <==> IsLetterOrDigit(c)
  {
  }

  lemma {:induction false} KeepAppend(a: string, b: string)
    ensures KeepCodeChars(a + b) == KeepCodeChars(a) + KeepCodeChars(b)
  {
    if a != [] {
      assert (a + b)[0] == a[0];
      assert (a + b)[1..] == a[1..] + b;
      KeepAppend(a[1..], b);
    } else {
      assert a + b == b;
    }
  }

  lemma {:induction false} KeepUnchanged(s: string)
    requires forall i :: 0 <= i < |s| ==> IsCodeChar(s[i])
    ensures KeepCodeChars(s) == s
  {
    if s != [] {
      KeepUnchanged(s[1..]);
    }
  }

  lemma {:induction false} KeepEmptyIffNone(s: string)
    ensures KeepCodeChars(s) == "" <==> forall i :: 0 <= i < |s| ==> !IsCodeChar(s[i])
  {
    if s != [] {
      KeepEmptyIffNone(s[1..]);
      assert forall i :: 1 <= i < |s| ==> s[i] == s[1..][i - 1];
    }
  }

  /** Sanitising what is already sanitised changes nothing. */
  lemma SanitizeIdempotent(value: string)
    ensures Sanitize(Sanitize(value)) == Sanitize(value)
  {
    var t := Sanitize(value);
    UpperCodeChars(t);
    KeepUnchanged(t);
  }

  /** Pasting a text gives the field the same value as typing it piece by piece. */
  lemma SanitizeAppend(a: string, b: string)
    ensures Sanitize(a + b) == Sanitize(a) + Sanitize(b)
  {
    assert ToUpper(a + b) == ToUpper(a) + ToUpper(b);
    KeepAppend(ToUpper(a), ToUpper(b));
  }

  /** The field ends up empty exactly when nothing typed was a letter or a digit. */
  lemma SanitizeEmptyIff(value: string)
    ensures Sanitize(value) == "" <==> forall i :: 0 <= i < |value| ==> !IsLetterOrDigit(value[i])
  {
    var up := ToUpper(value);
    KeepEmptyIffNone(up);
    forall i | 0 <= i < |value| ensures IsCodeChar(up[i]) <==> IsLetterOrDigit(value[i]) {
      UpperKeepsExactlyLettersAndDigits(value[i]);
    }
  }

  /** The field's content is already trimmed, normalised and usable as a key. */
  lemma SanitizedIsNormal(value: string)
    ensures Trim(Sanitize(value)) == Sanitize(value)
    ensures Normalize(Sanitize(value)) == Sanitize(value)
    ensures IsSegment(Sanitize(value))
  {
    CodeCharsAreNormal(Sanitize(value));
  }

  class JoinRoomPage {
    const hook: JoinRoomHook
    var roomCode: string
    var isJoining: bool

    /** The field only ever holds upper-case letters and digits. */
    predicate Valid()
      reads this
    {
      forall i :: 0 <= i < |roomCode| ==> IsCodeChar(roomCode[i])
    }

    constructor(hook: JoinRoomHook)
      ensures this.hook == hook && roomCode == "" && !isJoining
      ensures Valid()
    {
      this.hook := hook;
      roomCode := "";
      isJoining := false;
    }

    /** The submit button is disabled while the field is blank or a join is under way. */
    predicate SubmitDisabled()
      reads this, hook
    {
      Trim(roomCode) == "" || hook.loading || isJoining
    }

    /** As the field holds only letters and digits, it is blank exactly when it is empty. */
    lemma SubmitDisabledIff()
      requires Valid()
      ensures SubmitDisabled() <==> roomCode == "" || hook.loading || isJoining
    {
      CodeCharsAreNormal(roomCode);
    }

    /** `handleInputChange`: the field keeps the sanitised text. */
    method HandleInputChange(value: string)
      modifies this
      ensures roomCode == Sanitize(value) && isJoining == old(isJoining)
      ensures Valid()
    {
      roomCode := Sanitize(value);
    }

    /**
     * `handleSubmit`: a blank field does nothing; otherwise the hook joins
     * the trimmed field, any failure it throws is swallowed, and the
     * joining flag is cleared again. As the field is already normal, the
     * hook looks the room up under exactly the field's text.
     */
    method HandleSubmit(isoNow: string) returns (submitted: bool)
      requires Valid() && hook.db.Valid()
      requires hook.user.Some? ==> IsSegment(hook.user.value)
      modifies this, hook, hook.db
      ensures Valid() && hook.db.Valid()
      ensures roomCode == old(roomCode)
      ensures submitted <==> old(roomCode) != ""
      ensures !old(SubmitDisabled()) ==> submitted
      ensures !submitted ==> isJoining == old(isJoining) && unchanged(hook) && hook.db.rooms == old(hook.db.rooms)
      ensures submitted ==> !isJoining
      ensures submitted && hook.user.None? ==> unchanged(hook) && hook.db.rooms == old(hook.db.rooms)
      ensures submitted && hook.user.Some? ==>
        var e := JoinCodeError(old(hook.db.rooms), roomCode);
        && !hook.loading && hook.error == e
        && (e.Some? ==> hook.db.rooms == old(hook.db.rooms) && hook.location == old(hook.location))
        && (e.None? ==> hook.db.rooms == Joined(old(hook.db.rooms), roomCode, hook.user.value, isoNow)
                        && hook.location == Some("/room/" + roomCode))
    {
      CodeCharsAreNormal(roomCode);
      var code := Trim(roomCode);
      if code == "" {
        return false;
      }
      isJoining := true;
      var _ := hook.JoinRoom(code, isoNow);
      isJoining := false;
      return true;
    }
  }
}
