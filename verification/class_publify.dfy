/** `publify(CtClass)` (ClientInstaller.java lines 202-218): widening every declared field, every declared
    behaviour (method or constructor) and every row of the `InnerClasses`
    attribute of one class to public.

    The javassist object model is replaced by a flat record: the flags of each
    declared member or inner-class row travel with an opaque payload (its name,
    descriptor, constant-pool indices) that widening never touches, and the
    rest of the class is a type parameter. */
module ClassPublify {
  import opened Wrappers
  import opened AccessFlags

  /** One entry carrying access flags: a field, a behaviour or an inner-class
      table row. */
  datatype Flagged<T> = Flagged(info: T, flags: Flags)

  /** A field or a behaviour as far as widening is concerned. */
  datatype MemberInfo = MemberInfo(name: string, descriptor: string)

  /** A row of the `InnerClasses` attribute (section 4.7.6 of the Java Virtual
      Machine Specification) without its flags: the three constant-pool
      indices. */
  datatype InnerClassInfo = InnerClassInfo(innerClassIndex: nat, outerClassIndex: nat, innerNameIndex: nat)

  /** A class: its declared fields, its declared behaviours, its
      `InnerClasses` table when the attribute is present, and everything else. */
  datatype ClassFile<R> = ClassFile(
    fields: seq<Flagged<MemberInfo>>,
    behaviors: seq<Flagged<MemberInfo>>,
    innerClasses: Option<seq<Flagged<InnerClassInfo>>>,
    rest: R)

  /** Every entry of `s` is public. */
  predicate AllPublic<T>(s: seq<Flagged<T>>) {
    forall i :: 0 <= i < |s| ==> IsPublic(s[i].flags)
  }

  /** Every flag the widening would touch is already public. */
  predicate ClassIsPublic<R>(c: ClassFile<R>) {
    && AllPublic(c.fields)
    && AllPublic(c.behaviors)
    && (c.innerClasses.Some? ==> AllPublic(c.innerClasses.value))
  }

  /** `t` is `s` with every entry widened on its own: same length, same order,
      same payloads, each entry's flags replaced by `Publify` of the old ones. */
  ghost predicate WidenedEach<T>(s: seq<Flagged<T>>, t: seq<Flagged<T>>) {
    && |t| == |s|
    && forall i :: 0 <= i < |s| ==> t[i].info == s[i].info && t[i].flags == Publify(s[i].flags)
  }

  /** The loop over one collection of entries (lines 204-209, 212-214). */
  function PublifyEach<T>(s: seq<Flagged<T>>): (r: seq<Flagged<T>>)
    ensures WidenedEach(s, r)
    ensures AllPublic(r)
  {
    if |s| == 0 then []
    else [s[0].(flags := Publify(s[0].flags))] + PublifyEach(s[1..])
  }

  /** `publify(CtClass)`. Fields and behaviours are widened entry by entry;
      the inner-class table, when present, is widened row by row and keeps
      its length; an absent table stays absent; the rest of the class is the
      same value. */
  function PublifyClass<R>(c: ClassFile<R>): (r: ClassFile<R>)
    ensures WidenedEach(c.fields, r.fields)
    ensures WidenedEach(c.behaviors, r.behaviors)
    ensures r.innerClasses.Some? <==> c.innerClasses.Some?
    ensures c.innerClasses.Some? ==> WidenedEach(c.innerClasses.value, r.innerClasses.value)
    ensures r.rest == c.rest
    ensures ClassIsPublic(r)
  {
    ClassFile(
      PublifyEach(c.fields),
      PublifyEach(c.behaviors),
      match c.innerClasses
      case None => None
      case Some(table) => Some(PublifyEach(table)),
      c.rest)
  }

  /** Widening a collection whose entries are all public changes nothing, and
      only such collections are left unchanged. */
  lemma PublifyEachFixedPoints<T>(s: seq<Flagged<T>>)
    ensures PublifyEach(s) == s <==> AllPublic(s)
  {
  }

  /** Widening a collection twice is widening it once. */
  lemma PublifyEachIdempotent<T>(s: seq<Flagged<T>>)
    ensures PublifyEach(PublifyEach(s)) == PublifyEach(s)
  {
  }

  /** `publify(CtClass)` leaves a class unchanged exactly when everything it
      would touch is already public. */
  lemma PublifyClassFixedPoints<R>(c: ClassFile<R>)
    ensures PublifyClass(c) == c <==> ClassIsPublic(c)
  {
    PublifyEachFixedPoints(c.fields);
    PublifyEachFixedPoints(c.behaviors);
    if c.innerClasses.Some? {
      PublifyEachFixedPoints(c.innerClasses.value);
    }
  }

  /** `publify(CtClass)` is idempotent. */
  lemma PublifyClassIdempotent<R>(c: ClassFile<R>)
    ensures PublifyClass(PublifyClass(c)) == PublifyClass(c)
  {
    PublifyClassFixedPoints(PublifyClass(c));
  }

  /** `CustomClassTransformer.transform`: the class produced by the
      translating loader, then widened. Whatever the loader does, every
      field, behaviour and inner-class row of the result is public, and the
      loader's output differs from the result only in flags. */
  function TransformClass<R>(load: ClassFile<R> -> ClassFile<R>, c: ClassFile<R>): (r: ClassFile<R>)
    ensures ClassIsPublic(r)
    ensures r.rest == load(c).rest
    ensures WidenedEach(load(c).fields, r.fields)
    ensures WidenedEach(load(c).behaviors, r.behaviors)
    ensures r.innerClasses.Some? <==> load(c).innerClasses.Some?
    ensures load(c).innerClasses.Some? ==> WidenedEach(load(c).innerClasses.value, r.innerClasses.value)
  {
    PublifyClass(load(c))
  }
}
