# Fabric client installer: access widening, library entries, location check, install progress

This project models the pure parts of `ClientInstaller`, the class that installs the
Fabric mod loader into a Minecraft game directory. The model covers five things:

- **publify(int)** widens the access flags of one field, method, constructor or
  inner-class row to public. Flags are the bit pattern of a Java `int` (`bv32`). The
  bits come from the Java Virtual Machine Specification: `ACC_PUBLIC` 0x0001,
  `ACC_PRIVATE` 0x0002 and `ACC_PROTECTED` 0x0004, in sections 4.5, 4.6 and 4.7.6.
  The source calls javassist's `AccessFlag.setPublic` for the change. That library is
  not part of this model, so the model uses javassist's published definition:
  `(f & ~(PRIVATE | PROTECTED)) | PUBLIC`. The installer only needs one fact about
  it: the result has the public bit set. So the control flow is also written as
  `PublifyWith`, which takes `setPublic` as a parameter. Its always-public,
  fixed-point and idempotence lemmas are proved for every `setPublic` with that one
  property.
- **publify(CtClass)** widens every declared field and every declared behaviour. It
  also widens every row of the `InnerClasses` attribute when the class has one. The
  javassist class is replaced by a flat record. Each entry keeps its flags next to an
  opaque payload. The rest of the class is a type parameter that widening never
  touches. `CustomClassTransformer.transform` runs the translating loader and then
  widens the result. It is modelled with the loader as a function parameter.
- **addDep** appends one `{name, url?}` object to the descriptor's `libraries` array.
- **isValidInstallLocation** checks the game directory. The file system becomes a
  record of boolean facts. The check at line 156 tests `versionsFolder` a second
  time, where the variable it just built, `versionFolder`, was evidently meant. The
  model keeps the check as written and proves two things. First, that branch can
  never decide the answer, and the version folder's own facts never matter. Second,
  on a consistent file system the corrected check gives exactly the same answers,
  because no file can exist inside a missing folder. So the slip has no observable
  effect: it is not a bug in the installer's observable behaviour.
- **install** is modelled as the list of progress reports it makes along each control
  path. The paths depend on whether the fabric jar is already downloaded (line 40),
  whether an old fabric version folder is present (line 57), and the two early exits.
  The first early exit is `version.split("-")[0]` on a version that splits into no
  pieces. The second is an invalid install location.

Modules: `Wrappers` (Option), `AccessFlags`, `ClassPublify`, `Libraries`,
`InstallLocation`, `Install`, one per file.

## Model

| member | source | states |
|---|---|---|
| AccessFlags.SetPublic | src/main/java/net/fabricmc/installer/installer/ClientInstaller.java:222 | the library's widening makes the flags public, leaves public as their only visibility bit, and keeps every other bit |
| AccessFlags.SetPublicMakesPublic | src/main/java/net/fabricmc/installer/installer/ClientInstaller.java:221-222 | javassist's `setPublic` meets the one property the installer relies on, so the lemmas stated for any such `setPublic` apply to the real one |
| AccessFlags.PublifyWithIsPublic | src/main/java/net/fabricmc/installer/installer/ClientInstaller.java:220-225 | for any `setPublic` whose result is public, `publify(int)` always returns public flags |
| AccessFlags.PublifyWithKeepsPublic | src/main/java/net/fabricmc/installer/installer/ClientInstaller.java:220-225 | for any such `setPublic`, `publify(int)` returns its argument unchanged exactly when the argument is already public |
| AccessFlags.PublifyWithIdempotent | src/main/java/net/fabricmc/installer/installer/ClientInstaller.java:220-225 | for any such `setPublic`, applying `publify(int)` twice is the same as applying it once |
| AccessFlags.Publify | src/main/java/net/fabricmc/installer/installer/ClientInstaller.java:220-225 | the result is public; public input is returned unchanged; for non-public input the visibility bits become exactly public and every other bit is kept |
| AccessFlags.PublifyFixedPoints | src/main/java/net/fabricmc/installer/installer/ClientInstaller.java:221-224 | `publify(int)` changes nothing if and only if the public bit is already set |
| AccessFlags.PublifyIdempotent | src/main/java/net/fabricmc/installer/installer/ClientInstaller.java:220-225 | `publify(publify(f)) == publify(f)` |
| AccessFlags.PublifyKeepsU2 | src/main/java/net/fabricmc/installer/installer/ClientInstaller.java:220-225 | flags that fit the class file's 16-bit field still fit after widening |
| AccessFlags.PublifyWellFormed | src/main/java/net/fabricmc/installer/installer/ClientInstaller.java:220-225 | flags naming at most one visibility name exactly public after widening, with no other bit moved |
| ClassPublify.PublifyEach | src/main/java/net/fabricmc/installer/installer/ClientInstaller.java:204-214 | each loop keeps length, order and payloads, replaces every entry's flags with `publify` of the old flags, and leaves every entry public |
| ClassPublify.PublifyClass | src/main/java/net/fabricmc/installer/installer/ClientInstaller.java:202-218 | fields and behaviours are widened entry by entry; a present inner-class table is widened row by row and keeps its length; an absent one stays absent; the rest of the class is the same value; everything widened is public |
| ClassPublify.PublifyEachFixedPoints | src/main/java/net/fabricmc/installer/installer/ClientInstaller.java:204-214 | widening a collection changes nothing if and only if all its entries are already public |
| ClassPublify.PublifyEachIdempotent | src/main/java/net/fabricmc/installer/installer/ClientInstaller.java:204-214 | widening a collection twice is widening it once |
| ClassPublify.PublifyClassFixedPoints | src/main/java/net/fabricmc/installer/installer/ClientInstaller.java:202-218 | `publify(CtClass)` returns the class unchanged if and only if every field, behaviour and inner-class row is already public |
| ClassPublify.PublifyClassIdempotent | src/main/java/net/fabricmc/installer/installer/ClientInstaller.java:202-218 | `publify(CtClass)` is idempotent |
| ClassPublify.TransformClass | src/main/java/net/fabricmc/installer/installer/ClientInstaller.java:195-198 | whatever the translating loader returns, the transformed class is entirely public and differs from the loader's output only in widened flags |
| Libraries.AddDep | src/main/java/net/fabricmc/installer/installer/ClientInstaller.java:138-145 | exactly one entry is appended, named `dep`; it has a url if and only if `maven` is non-empty, and that url is `maven`; earlier entries are unchanged and keep their order |
| Libraries.AddDepNames | src/main/java/net/fabricmc/installer/installer/ClientInstaller.java:138-145 | the array's names after the call are the names before it followed by `dep` |
| Libraries.AddDepTwice | src/main/java/net/fabricmc/installer/installer/ClientInstaller.java:138-145 | two successive calls append their entries in call order after the untouched earlier entries |
| InstallLocation.CheckAsWritten | src/main/java/net/fabricmc/installer/installer/ClientInstaller.java:148-167 | the check at line 156 never decides the answer; the location is valid if and only if the game dir is a directory, `versions` exists and is a directory, and both version files exist |
| InstallLocation.CheckCorrected | src/main/java/net/fabricmc/installer/installer/ClientInstaller.java:155-158 | with line 156 testing the version folder, that check fires exactly when the earlier checks pass and the version folder is missing or not a directory |
| InstallLocation.IsValidInstallLocation | src/main/java/net/fabricmc/installer/installer/ClientInstaller.java:147-167 | returns empty if and only if all five facts hold; otherwise it returns the message of the first failing check |
| InstallLocation.VersionFolderNeverConsulted | src/main/java/net/fabricmc/installer/installer/ClientInstaller.java:155-158 | the answer does not depend on whether the version folder exists or is a directory |
| InstallLocation.CorrectedAgreesWhenConsistent | src/main/java/net/fabricmc/installer/installer/ClientInstaller.java:155-164 | on a consistent file system the corrected check gives the same answer as the written one |
| InstallLocation.CorrectedDiffersWhenInconsistent | src/main/java/net/fabricmc/installer/installer/ClientInstaller.java:155-158 | there is an inconsistent fact set (version files inside a version "folder" that is a plain file) on which the written check accepts and the corrected one rejects, so the consistency assumption of `CorrectedAgreesWhenConsistent` is needed |
| Install.GameVersion | src/main/java/net/fabricmc/installer/installer/ClientInstaller.java:34-35 | `split("-")[0]` fails if and only if the version is non-empty and all dashes; otherwise it is the dash-free prefix that ends at the first dash |
| Install.Install | src/main/java/net/fabricmc/installer/installer/ClientInstaller.java:32-136 | the first report is "Installing" at 0; provided every step after line 36 succeeds, the run completes if and only if the version splits and the location is valid, and otherwise stops after that first report, with the index error for a failed split or the location message for an invalid location; a completed run ends with "Done!" at 100 and reports the download exactly when the jar is missing and the removal exactly when an old folder exists |
| Install.StepsToNonDecreasing | src/main/java/net/fabricmc/installer/installer/ClientInstaller.java:33-135 | if no neighbouring pair of reports goes backwards, no pair of reports goes backwards |
| Install.CompletedProgressMonotone | src/main/java/net/fabricmc/installer/installer/ClientInstaller.java:33-135 | on every completed path the percentages start at 0, end at 100, stay within 0..100 and never decrease |

## Left out

- Symbol remapping by Enigma's `Deobfuscator` and `TranslatingTypeLoader` (lines 117-121, 182-198) is left out. Those are foreign libraries, and `TransformClass` takes the loader as a parameter.
- javassist's `CtClass`, `CtField` and `InnerClassesAttribute` are left out. They are replaced by a flat record. `AccessFlag.isPublic` and `setPublic` are given javassist's published definitions.
- Downloading, manifest reading, and creating, copying and deleting files and folders (lines 42, 45-48, 57-63, 101-104, 134) are left out as I/O. Their results become the boolean facts in `Environment`.
- Gson parsing and the patching of the version descriptor (lines 66-97) are left out, apart from `addDep`. The same goes for adding the dependencies file's libraries at line 95. These are calls into an unseen library.
- Zip unpacking and packing with name filters (lines 86-92, 106-112, 123-131) are left out as archive I/O.
- Install: any exception after line 36 is not modelled. This covers I/O failures and also the null dereferences the method can hit: a jar without a manifest (line 46), a descriptor without `minecraftArguments` (line 77, as in the descriptors of game versions 1.13 and later), and a missing `libraries` array (lines 83, 95 and 144). Only the two early exits and complete runs are modelled, so `Completed` means every later step succeeded. The message strings built from the manifest's `FabricVersion` are not used by any report, so they are not modelled.
- Install: the file system is modelled as one snapshot. The source asks it twice, at lines 35 and 36, and if it changes in between so that the second check passes, `.get()` throws `NoSuchElementException`. That race is not modelled.
- The no-op `ProgressListener` (lines 170-180) has no behaviour to model.
- `System.out.println` at line 49 is console output and is left out.
