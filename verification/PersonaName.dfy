/** Normalising a visible name: text elements that show nothing are dropped, the rest is trimmed and
    cut to the size of the native name field. */
module PersonaName {
  import opened Prelude
  import Bridge

  // A rune with its Unicode classes and its UTF-8 encoding; an element is what the runtime takes
  // for one character.
  datatype Rune = Rune(invisible: bool, whitespace: bool, utf8: seq<byte>)
  type Element = seq<Rune>
  type Name = seq<Element>

  // BotHiderContract.MaxPlayerNameUtf8Bytes
  const MAX_NAME_BYTES: nat := 31

  // bridge::kNameLen
  const NAME_FIELD: nat := 32

  predicate IsInvisible(e: Element) {
    forall r <- e :: r.invisible
  }

  predicate IsWhitespace(e: Element) {
    (exists r <- e :: r.whitespace) && forall r <- e :: r.whitespace || r.invisible
  }

  function ElementBytes(e: Element): seq<byte> {
    if e == [] then [] else e[0].utf8 + ElementBytes(e[1..])
  }

  function Bytes(n: Name): seq<byte> {
    if n == [] then [] else ElementBytes(n[0]) + Bytes(n[1..])
  }

  function Visible(n: Name): Name {
    if n == [] then []
    else
      var last := n[|n| - 1];
      Visible(n[..|n| - 1]) + if IsInvisible(last) then [] else [last]
  }

  function TrimStart(n: Name): Name {
    if n != [] && IsWhitespace(n[0]) then TrimStart(n[1..]) else n
  }

  function TrimEnd(n: Name): Name {
    if n != [] && IsWhitespace(n[|n| - 1]) then TrimEnd(n[..|n| - 1]) else n
  }

  // The elements up to the first one that does not fit.
  function Fitting(n: Name, room: nat): Name {
    if n == [] || |ElementBytes(n[0])| > room then []
    else [n[0]] + Fitting(n[1..], room - |ElementBytes(n[0])|)
  }

  function Normalised(n: Name): Name {
    TrimEnd(Fitting(TrimEnd(TrimStart(Visible(n))), MAX_NAME_BYTES))
  }

  // What a name that can be shown as it is looks like; it has at most 31 bytes.
  predicate Presentable(n: Name) {
    && (forall e <- n :: !IsInvisible(e))
    && (n != [] ==> !IsWhitespace(n[0]) && !IsWhitespace(n[|n| - 1]))
    && |Bytes(n)| <= 31
  }

  lemma {:induction false} VisibleHasNoInvisible(n: Name)
    ensures forall e <- Visible(n) :: !IsInvisible(e)
  {
    if n != [] {
      VisibleHasNoInvisible(n[..|n| - 1]);
    }
  }

  // The visible elements, in order: what is visible of two parts put together, and of a single element.
  lemma {:induction false} VisibleIsFilter(a: Name, b: Name, e: Element)
    ensures Visible(a + b) == Visible(a) + Visible(b)
    ensures Visible([e]) == if forall k :: 0 <= k < |e| ==> e[k].invisible then [] else [e]
  {
    hide IsInvisible;
    if b == [] {
      assert a + b == a;
    } else {
      VisibleIsFilter(a, b[..|b| - 1], e);
      assert (a + b)[..|a + b| - 1] == a + b[..|b| - 1];
    }
    ElementIsInvisible(e);
  }

  lemma ElementIsInvisible(e: Element)
    ensures IsInvisible(e) <==> forall k :: 0 <= k < |e| ==> e[k].invisible
    ensures Visible([e]) == if IsInvisible(e) then [] else [e]
  {
    assert [e][..0] == [];
  }

  lemma {:induction false} TrimStartIsSuffix(n: Name)
    ensures |TrimStart(n)| <= |n| && TrimStart(n) == n[|n| - |TrimStart(n)|..]
    ensures TrimStart(n) != [] ==> !IsWhitespace(TrimStart(n)[0])
    ensures forall i :: 0 <= i < |n| - |TrimStart(n)| ==> IsWhitespace(n[i])
  {
    hide IsWhitespace;
    if n != [] && IsWhitespace(n[0]) {
      TrimStartIsSuffix(n[1..]);
      assert forall i :: 0 < i < |n| ==> n[i] == n[1..][i - 1];
    }
  }

  lemma {:induction false} TrimEndIsPrefix(n: Name)
    ensures TrimEnd(n) <= n
    ensures TrimEnd(n) != [] ==> !IsWhitespace(TrimEnd(n)[|TrimEnd(n)| - 1])
    ensures forall i :: |TrimEnd(n)| <= i < |n| ==> IsWhitespace(n[i])
  {
    hide IsWhitespace;
    if n != [] && IsWhitespace(n[|n| - 1]) {
      TrimEndIsPrefix(n[..|n| - 1]);
    }
  }

  lemma {:induction false} BytesAppend(a: Name, b: Name)
    ensures Bytes(a + b) == Bytes(a) + Bytes(b)
  {
    if a == [] {
      assert a + b == b;
    } else {
      assert (a + b)[1..] == a[1..] + b;
      BytesAppend(a[1..], b);
    }
  }

  // The longest prefix that fits.
  lemma {:induction false} FittingIsLongest(n: Name, room: nat)
    ensures Fitting(n, room) <= n && |Bytes(Fitting(n, room))| <= room
    ensures forall k :: |Fitting(n, room)| < k <= |n| ==> |Bytes(n[..k])| > room
  {
    if n != [] {
      var size := |ElementBytes(n[0])|;
      if size <= room {
        var rest := Fitting(n[1..], room - size);
        FittingIsLongest(n[1..], room - size);
        assert ([n[0]] + rest)[1..] == rest;
      }
      forall k | |Fitting(n, room)| < k <= |n| ensures |Bytes(n[..k])| > room {
        assert n[..k][1..] == n[1..][..k - 1];
      }
    }
  }

  // A prefix that fits in 31 bytes, where no longer one does.
  ghost predicate IsLongest(core: Name, cut: Name) {
    && cut <= core && |Bytes(cut)| <= 31
    && forall k :: |cut| < k <= |core| ==> |Bytes(core[..k])| > 31
  }

  // The result is the longest fitting prefix of the visible elements without their edges, trimmed
  // once more.
  lemma NormalisedIsLongest(n: Name)
    ensures exists cut :: IsLongest(TrimEnd(TrimStart(Visible(n))), cut) && Normalised(n) == TrimEnd(cut)
  {
    hide Bytes, Fitting, TrimEnd, TrimStart, Visible;
    var core := TrimEnd(TrimStart(Visible(n)));
    FittingIsLongest(core, MAX_NAME_BYTES);
    assert IsLongest(core, Fitting(core, MAX_NAME_BYTES));
  }

  lemma BytesOfPrefix(a: Name, b: Name)
    requires a <= b
    ensures |Bytes(a)| <= |Bytes(b)|
  {
    BytesAppend(a, b[|a|..]);
    assert a + b[|a|..] == b;
  }

  // Everything shows, and the first element is not white space.
  predicate StartsClean(n: Name) {
    (forall e <- n :: !IsInvisible(e)) && (n != [] ==> !IsWhitespace(n[0]))
  }

  lemma PrefixStartsClean(a: Name, b: Name)
    requires a <= b && StartsClean(b)
    ensures StartsClean(a)
  {
    hide IsInvisible, IsWhitespace;
  }

  lemma TrimmedStartsClean(v: Name)
    requires forall e <- v :: !IsInvisible(e)
    ensures StartsClean(TrimStart(v))
  {
    TrimStartIsSuffix(v);
    hide IsInvisible, IsWhitespace, TrimStart;
  }

  // Whatever goes in, what comes out can be shown.
  lemma NormalisedIsPresentable(n: Name)
    ensures Presentable(Normalised(n))
  {
    hide Visible, TrimStart, TrimEnd, Fitting, Bytes;
    var a := TrimStart(Visible(n));
    var b := TrimEnd(a);
    var c := Fitting(b, MAX_NAME_BYTES);
    VisibleHasNoInvisible(n);
    TrimmedStartsClean(Visible(n));
    TrimEndIsPrefix(a);
    PrefixStartsClean(b, a);
    FittingIsLongest(b, MAX_NAME_BYTES);
    PrefixStartsClean(c, b);
    TrimEndIsPrefix(c);
    PrefixStartsClean(TrimEnd(c), c);
    BytesOfPrefix(TrimEnd(c), c);
    hide IsInvisible, IsWhitespace;
  }

  lemma {:induction false} VisibleKeeps(n: Name)
    requires forall e <- n :: !IsInvisible(e)
    ensures Visible(n) == n
  {
    hide IsInvisible;
    if n != [] {
      VisibleKeeps(n[..|n| - 1]);
    }
  }

  lemma {:induction false} FittingKeeps(n: Name, room: nat)
    requires |Bytes(n)| <= room
    ensures Fitting(n, room) == n
  {
    if n != [] {
      FittingKeeps(n[1..], room - |ElementBytes(n[0])|);
    }
  }

  // Exactly the presentable names are left as they are.
  lemma UnchangedIffPresentable(n: Name)
    ensures Normalised(n) == n <==> Presentable(n)
  {
    NormalisedIsPresentable(n);
    if Presentable(n) {
      VisibleKeeps(n);
      FittingKeeps(n, MAX_NAME_BYTES);
    }
  }

  lemma NormalisingIsIdempotent(n: Name)
    ensures Normalised(Normalised(n)) == Normalised(n)
  {
    NormalisedIsPresentable(n);
    UnchangedIffPresentable(Normalised(n));
  }

  // A zero byte encodes a control character, and a control character is an element of its own or
  // among its kind.
  ghost predicate ControlsStandAlone(n: Name) {
    forall e <- n :: 0 in ElementBytes(e) ==> IsInvisible(e)
  }

  lemma {:induction false} NoZeroBytes(n: Name)
    requires forall e <- n :: 0 !in ElementBytes(e)
    ensures 0 !in Bytes(n)
  {
    if n != [] {
      NoZeroBytes(n[1..]);
    }
  }

  lemma {:induction false} VisibleIsFromName(n: Name)
    ensures forall e <- Visible(n) :: e in n
  {
    if n != [] {
      VisibleIsFromName(n[..|n| - 1]);
    }
  }

  lemma NormalisedIsFromName(n: Name)
    ensures forall e <- Normalised(n) :: e in n
  {
    VisibleIsFromName(n);
    TrimStartIsSuffix(Visible(n));
    TrimEndIsPrefix(TrimStart(Visible(n)));
    FittingIsLongest(TrimEnd(TrimStart(Visible(n))), MAX_NAME_BYTES);
    TrimEndIsPrefix(Fitting(TrimEnd(TrimStart(Visible(n))), MAX_NAME_BYTES));
    hide Visible, TrimStart, TrimEnd, Fitting;
  }

  // The native side takes every normalised name that is not empty.
  lemma NormalisedNamesAreAccepted(n: Name)
    requires ControlsStandAlone(n)
    ensures var bytes := Bytes(Normalised(n)); Bridge.Copyable(NAME_FIELD, Some(bytes), |bytes|)
  {
    var r := Normalised(n);
    NormalisedIsPresentable(n);
    NormalisedIsFromName(n);
    hide Normalised;
    NoZeroBytes(r);
    assert Bytes(r)[..|Bytes(r)|] == Bytes(r);
  }

  lemma {:induction false} BlankTrimsAway(n: Name)
    requires forall e <- n :: IsWhitespace(e)
    ensures TrimStart(n) == []
  {
    if n != [] {
      BlankTrimsAway(n[1..]);
    }
  }

  // A name all of whose runes are white space comes to nothing, which the method decides at once.
  lemma BlankNamesVanish(n: Name)
    requires forall e <- n :: e != [] && forall r <- e :: r.whitespace
    ensures Normalised(n) == []
  {
    VisibleIsFromName(n);
    forall e | e in n ensures IsWhitespace(e) {
      assert e[0] in e;
    }
    BlankTrimsAway(Visible(n));
  }

  predicate IsBlank(n: Name) {
    forall e <- n :: forall r <- e :: r.whitespace
  }

  method IsInvisiblePersonaElement(e: Element) returns (invisible: bool)
    ensures invisible <==> IsInvisible(e)
    ensures invisible <==> forall k :: 0 <= k < |e| ==> e[k].invisible
  {
    for i := 0 to |e|
      invariant forall k :: 0 <= k < i ==> e[k].invisible
    {
      if !e[i].invisible {
        return false;
      }
    }
    return true;
  }

  method IsWhitespacePersonaElement(e: Element) returns (whitespace: bool)
    ensures whitespace <==> IsWhitespace(e)
    ensures whitespace <==>
              && (exists k :: 0 <= k < |e| && e[k].whitespace)
              && (forall k :: 0 <= k < |e| ==> e[k].whitespace || e[k].invisible)
  {
    var hasWhitespace := false;
    for i := 0 to |e|
      invariant hasWhitespace <==> exists k :: 0 <= k < i && e[k].whitespace
      invariant forall k :: 0 <= k < i ==> e[k].whitespace || e[k].invisible
    {
      if e[i].whitespace {
        hasWhitespace := true;
        continue;
      }
      if !e[i].invisible {
        return false;
      }
    }
    return hasWhitespace;
  }

  // No source is a null string; elements are never empty.
  method BuildBoundedVisiblePersonaName(source: Option<Name>) returns (name: Name)
    requires source.Some? ==> forall e <- source.value :: e != []
    ensures name == if source.None? then [] else Normalised(source.value)
  {
    if source.None? {
      return [];
    }
    if IsBlank(source.value) {
      BlankNamesVanish(source.value);
      return [];
    }
    hide IsInvisible, IsWhitespace;
    var elements := source.value;
    var visible: Name := [];
    for i := 0 to |elements|
      invariant visible == Visible(elements[..i])
    {
      assert elements[..i + 1][..i] == elements[..i];
      var invisible := IsInvisiblePersonaElement(elements[i]);
      if !invisible {
        visible := visible + [elements[i]];
      }
    }
    assert elements[..|elements|] == elements;
    var core := WithoutEdges(visible);
    var bounded := Bounded(core);
    name := WithoutEnd(bounded, 0);
  }

  // The loop over `first`, then the one over `last`.
  method WithoutEdges(visible: Name) returns (core: Name)
    ensures core == TrimEnd(TrimStart(visible))
  {
    hide IsWhitespace;
    var first := 0;
    while first < |visible|
      invariant first <= |visible|
      invariant TrimStart(visible) == TrimStart(visible[first..])
    {
      var blank := IsWhitespacePersonaElement(visible[first]);
      if !blank {
        break;
      }
      assert visible[first..][1..] == visible[first + 1..];
      first := first + 1;
    }
    assert TrimStart(visible) == visible[first..];
    core := WithoutEnd(visible, first);
  }

  // White space is taken off the end, down to `first`.
  method WithoutEnd(n: Name, first: nat) returns (core: Name)
    requires first <= |n|
    ensures core == TrimEnd(n[first..])
  {
    hide IsWhitespace;
    var last := |n|;
    assert n[first..] == n[first..last];
    while last > first
      invariant first <= last <= |n|
      invariant TrimEnd(n[first..]) == TrimEnd(n[first..last])
    {
      var blank := IsWhitespacePersonaElement(n[last - 1]);
      if !blank {
        break;
      }
      assert n[first..last][..last - first - 1] == n[first..last - 1];
      last := last - 1;
    }
    core := n[first..last];
  }

  // Elements are taken until one does not fit.
  method Bounded(core: Name) returns (bounded: Name)
    ensures bounded == Fitting(core, MAX_NAME_BYTES)
  {
    bounded := [];
    var utf8Bytes := 0;
    for index := 0 to |core|
      invariant utf8Bytes <= MAX_NAME_BYTES
      invariant Fitting(core, MAX_NAME_BYTES) == bounded + Fitting(core[index..], MAX_NAME_BYTES - utf8Bytes)
    {
      var elementBytes := |ElementBytes(core[index])|;
      assert core[index..][1..] == core[index + 1..];
      if utf8Bytes + elementBytes > MAX_NAME_BYTES {
        break;
      }
      bounded := bounded + [core[index]];
      utf8Bytes := utf8Bytes + elementBytes;
    }
  }
}
