/** The loader's use of the configuration: the entry chosen for the buttons
    held at boot, and the two 256-character argument buffers handed to the
    bootloader (the payload path and the offset rendered in decimal). */
module Loader {
  import opened Wrappers
  import opened JsonTokens
  import opened CNumbers
  import opened ConfigStore

  /** The size of both argument buffers. */
  const BufferSize: nat := 256

  /** The reasons `main` stops with an error message instead of booting. */
  datatype BootError = NoPayloadSelected | PayloadTooLong | OffsetTooLong

  /** The C string a buffer holds: its characters up to the first NUL (all of
      them when there is none). */
  function CString(buffer: seq<char>): (s: string)
    ensures |s| <= |buffer| && NoNul(s) && s == buffer[..|s|]
    ensures |s| < |buffer| ==> buffer[|s|] == '\0'
  {
    if |buffer| == 0 || buffer[0] == '\0' then []
    else [buffer[0]] + CString(buffer[1..])
  }

  /** A string without NUL followed by a NUL reads back as itself. */
  lemma {:induction false} CStringOfTerminated(s: string, rest: seq<char>)
    requires NoNul(s)
    ensures CString(s + ['\0'] + rest) == s
  {
    if |s| > 0 {
      assert (s + ['\0'] + rest)[1..] == s[1..] + ['\0'] + rest;
      CStringOfTerminated(s[1..], rest);
    } else {
      assert (s + ['\0'] + rest)[0] == '\0';
    }
  }

  /** `select_payload`: the lowest-numbered entry whose button mask equals the
      held mask exactly (not a subset test); none when no entry's does. It
      only reads the configuration. */
  method SelectPayload(config: Config, buttons: bv32) returns (selected: Option<nat>)
    requires config.Valid()
    ensures selected.Some? ==> selected.value < config.numEntries
    ensures selected.Some? ==> config.Contents()[selected.value].buttons == buttons
    ensures selected.Some? ==> forall k :: 0 <= k < selected.value ==> config.Contents()[k].buttons != buttons
    ensures selected.None? <==> forall k :: 0 <= k < config.numEntries ==> config.Contents()[k].buttons != buttons
  {
    var numOfEntries := config.NumberOfEntries();
    var i := 0;
    while i < numOfEntries
      invariant i <= numOfEntries
      invariant forall k :: 0 <= k < i ==> config.Contents()[k].buttons != buttons
    {
      var entry := config.GetEntry(i);
      if entry.buttons == buttons {
        return Some(i);
      }
      i := i + 1;
    }
    return None;
  }

  /** The payload check and copy in `main`: a path whose length with its
      terminator exceeds the buffer is an error and nothing is copied;
      otherwise the path and its terminator are copied to the front of the
      buffer and the rest of the buffer is left as it was. */
  method CopyPayload(buffer: array<char>, payload: string) returns (ok: bool)
    requires buffer.Length == BufferSize
    modifies buffer
    ensures ok == (|payload| + 1 <= BufferSize)
    ensures !ok ==> buffer[..] == old(buffer[..])
    ensures ok ==> buffer[..] == payload + ['\0'] + old(buffer[..])[|payload| + 1..]
  {
    var payloadLen := |payload| + 1;
    if payloadLen > buffer.Length {
      return false;
    }
    ghost var before := buffer[..];
    for k := 0 to payloadLen
      invariant forall m :: 0 <= m < k ==> buffer[m] == (payload + ['\0'])[m]
      invariant forall m :: k <= m < buffer.Length ==> buffer[m] == before[m]
    {
      buffer[k] := if k < |payload| then payload[k] else '\0';
    }
    assert buffer[..] == payload + ['\0'] + before[payloadLen..];
    ok := true;
  }

  /** The offset rendering in `main`: `snprintf` writes as many digits of
      the `"%zu"` rendering as fit before a terminator and returns the full
      length, which is an error when it exceeds the buffer size. */
  method RenderOffset(buffer: array<char>, offset: SizeT) returns (ok: bool)
    requires buffer.Length == BufferSize
    modifies buffer
    ensures ok == (|DecimalString(offset)| <= BufferSize)
    ensures |DecimalString(offset)| < BufferSize ==>
              buffer[..] == DecimalString(offset) + ['\0'] + old(buffer[..])[|DecimalString(offset)| + 1..]
  {
    var text := DecimalString(offset);
    var written := if |text| < buffer.Length then |text| else buffer.Length - 1;
    ghost var before := buffer[..];
    for k := 0 to written + 1
      invariant forall m :: 0 <= m < k ==> buffer[m] == (text[..written] + ['\0'])[m]
      invariant forall m :: k <= m < buffer.Length ==> buffer[m] == before[m]
    {
      buffer[k] := if k < written then text[k] else '\0';
    }
    if |text| < buffer.Length {
      assert buffer[..] == text + ['\0'] + before[|text| + 1..];
    }
    ok := |text| <= buffer.Length;
  }

  /** The offset check never fires: every `size_t` renders in far fewer than
      256 characters, so the buffer always holds the whole rendering. */
  lemma OffsetAlwaysFits(offset: SizeT)
    ensures |DecimalString(offset)| < BufferSize
    ensures CString(DecimalString(offset) + ['\0']) == DecimalString(offset)
  {
    SizeTDecimalLength(offset);
    var s := DecimalString(offset);
    assert NoNul(s) by {
      forall k | 0 <= k < |s| ensures s[k] != '\0' {
        assert '0' <= s[k] <= '9';
      }
    }
    CStringOfTerminated(s, []);
    assert s + ['\0'] + [] == s + ['\0'];
  }

  /** Entry k is the one `select_payload` returns for the held mask: its mask
      is equal and no earlier entry's is. */
  ghost predicate IsFirstMatch(entries: seq<Entry>, buttons: bv32, k: nat)
  {
    k < |entries| && entries[k].buttons == buttons && forall m :: 0 <= m < k ==> entries[m].buttons != buttons
  }

  /** The steps of `main` between reading the configuration and jumping to
      the bootloader: select the entry for the held buttons, copy its path
      and render its offset into fresh zeroed buffers. On success the two
      buffers read back as the first matching entry's path and its decimal
      offset; a path too long for its buffer is an error; the offset check
      never fires. */
  method PrepareBootArguments(config: Config, buttons: bv32) returns (r: Result<(string, string), BootError>)
    requires config.Valid()
    requires forall k :: 0 <= k < config.numEntries ==> config.Contents()[k].payload.Some?
    requires forall k :: 0 <= k < config.numEntries ==> NoNul(config.Contents()[k].payload.value)
    ensures r.Success? ==> exists k: nat :: IsFirstMatch(config.Contents(), buttons, k)
                              && r.value == (config.Contents()[k].payload.value, DecimalString(config.Contents()[k].offset))
    ensures r == Failure(NoPayloadSelected) <==> forall k :: 0 <= k < config.numEntries ==> config.Contents()[k].buttons != buttons
    ensures r == Failure(PayloadTooLong) <==>
              exists k: nat :: IsFirstMatch(config.Contents(), buttons, k) && |config.Contents()[k].payload.value| + 1 > BufferSize
    ensures r != Failure(OffsetTooLong)
  {
    var payload := new char[BufferSize](_ => '\0');
    var selected := SelectPayload(config, buttons);
    ghost var held := config.Contents();
    assert |held| == config.numEntries;
    if selected.None? {
      return Failure(NoPayloadSelected);
    }
    assert IsFirstMatch(held, buttons, selected.value);
    forall k | IsFirstMatch(held, buttons, k) ensures k == selected.value {
    }
    var entry := config.GetEntry(selected.value);
    assert held[selected.value] == entry && entry.buttons == buttons;
    var path := entry.payload.value;
    var copied := CopyPayload(payload, path);
    assert config.Contents() == held;
    if !copied {
      return Failure(PayloadTooLong);
    }
    assert payload[..] == path + ['\0'] + payload[|path| + 1..];
    CStringOfTerminated(path, payload[|path| + 1..]);
    var offset := new char[BufferSize](_ => '\0');
    OffsetAlwaysFits(entry.offset);
    var rendered := RenderOffset(offset, entry.offset);
    assert config.Contents() == held;
    if !rendered {
      return Failure(OffsetTooLong);
    }
    assert offset[..] == DecimalString(entry.offset) + ['\0'] + offset[|DecimalString(entry.offset)| + 1..];
    CStringOfTerminated(DecimalString(entry.offset), offset[|DecimalString(entry.offset)| + 1..]);
    r := Success((CString(payload[..]), CString(offset[..])));
  }
}
