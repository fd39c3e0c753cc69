/** Access flags of fields, methods and inner-class table rows, and the
    "publify" widening applied to them.

    Flags are the bit pattern of a Java `int` (`bv32`). The visibility bits are
    those of the Java Virtual Machine Specification, sections 4.5 and 4.6
    (`access_flags` of fields and methods) and section 4.7.6
    (`inner_class_access_flags`). */
module AccessFlags {

  type Flags = bv32

  const ACC_PUBLIC: Flags := 0x0001
  const ACC_PRIVATE: Flags := 0x0002
  const ACC_PROTECTED: Flags := 0x0004

  /** The three visibility bits together. */
  const VISIBILITY: Flags := ACC_PUBLIC | ACC_PRIVATE | ACC_PROTECTED

  /** `AccessFlag.isPublic`: the public bit is set. */
  predicate IsPublic(f: Flags) {
    f & ACC_PUBLIC != 0
  }

  /** The visibility bits of `f`. */
  function Visibility(f: Flags): Flags {
    f & VISIBILITY
  }

  /** Every bit of `f` other than the visibility bits. */
  function OtherBits(f: Flags): Flags {
    f & !VISIBILITY
  }

  /** `AccessFlag.setPublic` as javassist defines it: drop private and
      protected, add public. The result is public, is the only visibility it
      carries, and every other bit is kept. */
  function SetPublic(f: Flags): (r: Flags)
    ensures IsPublic(r)
    ensures Visibility(r) == ACC_PUBLIC
    ensures OtherBits(r) == OtherBits(f)
  {
    (f & !(ACC_PRIVATE | ACC_PROTECTED)) | ACC_PUBLIC
  }

  /** What the installer relies on of a `setPublic`: its result is public. */
  ghost predicate MakesPublic(setPublic: Flags -> Flags) {
    forall f :: IsPublic(setPublic(f))
  }

  /** `publify(int)` with the library's `setPublic` as a parameter: flags that
      are already public are returned as they are, others go through
      `setPublic`. */
  function PublifyWith(setPublic: Flags -> Flags, f: Flags): Flags {
    if !IsPublic(f) then setPublic(f) else f
  }

  /** For every `setPublic` that makes its argument public, widening always
      yields public flags. */
  lemma PublifyWithIsPublic(setPublic: Flags -> Flags, f: Flags)
    requires MakesPublic(setPublic)
    ensures IsPublic(PublifyWith(setPublic, f))
  {
  }

  /** For every `setPublic` that makes its argument public, widening leaves
      the flags unchanged exactly when they are already public. */
  lemma PublifyWithKeepsPublic(setPublic: Flags -> Flags, f: Flags)
    requires MakesPublic(setPublic)
    ensures PublifyWith(setPublic, f) == f <==> IsPublic(f)
  {
  }

  /** For every `setPublic` that makes its argument public, widening twice is
      widening once. */
  lemma PublifyWithIdempotent(setPublic: Flags -> Flags, f: Flags)
    requires MakesPublic(setPublic)
    ensures PublifyWith(setPublic, PublifyWith(setPublic, f)) == PublifyWith(setPublic, f)
  {
  }

  /** `publify(int)` with javassist's `setPublic`. The result is public;
      public input comes back unchanged; non-public input keeps every bit
      except the visibility bits, which become exactly `ACC_PUBLIC`. */
  function Publify(f: Flags): (r: Flags)
    ensures IsPublic(r)
    ensures IsPublic(f) ==> r == f
    ensures !IsPublic(f) ==> Visibility(r) == ACC_PUBLIC && OtherBits(r) == OtherBits(f)
  {
    PublifyWith(SetPublic, f)
  }

  /** javassist's `setPublic` has the one property the installer relies on. */
  lemma SetPublicMakesPublic()
    ensures MakesPublic(SetPublic)
  {
  }

  /** Widening changes nothing exactly when the flags are already public. */
  lemma PublifyFixedPoints(f: Flags)
    ensures Publify(f) == f <==> IsPublic(f)
  {
    SetPublicMakesPublic();
    PublifyWithKeepsPublic(SetPublic, f);
  }

  /** Widening twice is widening once. */
  lemma PublifyIdempotent(f: Flags)
    ensures Publify(Publify(f)) == Publify(f)
  {
    SetPublicMakesPublic();
    PublifyWithIdempotent(SetPublic, f);
  }

  /** Flags that fit the class file's `u2` field still fit it after widening. */
  lemma PublifyKeepsU2(f: Flags)
    requires f <= 0xFFFF
    ensures Publify(f) <= 0xFFFF
  {
  }

  /** Flags that name at most one visibility (as section 4.5 and 4.6 of the
      Java Virtual Machine Specification require) name exactly public after
      widening, and no bit outside the visibility bits moves. */
  lemma PublifyWellFormed(f: Flags)
    requires Visibility(f) in {0, ACC_PUBLIC, ACC_PRIVATE, ACC_PROTECTED}
    ensures Visibility(Publify(f)) == ACC_PUBLIC
    ensures OtherBits(Publify(f)) == OtherBits(f)
  {
  }
}
