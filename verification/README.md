# Glance v2 image status codec and image update, in Dafny

This project models two pieces of the openstack4j Glance v2 (image service) client:

- **`Image.Status`**, the image status enum, and its wire-name codec. There are eight
  constants, `UNRECOGNIZED` among them. `value(String)` upper-cases its input and looks up
  the constant of that name. It never fails: a null input or an unknown name gives
  `UNRECOGNIZED`. `value()` emits the constant's name in lower case.
- **`GlanceImageUpdate`**, an image update: an ordered list of patch operations
  (kind, path, optional JSON value).
  - Its JSON constructor walks a JSON array front to back. It removes each element from
    the array and appends the operation built from that element.
  - Its list constructor and `getOps` share the caller's list rather than copying it.
  - Its builder wraps one update object and mutates it in place. `build()` returns that
    same object.

Layout:

| file | module | content |
|---|---|---|
| `wrappers.dfy` | `Wrappers` | `Option`, the stand-in for a nullable reference |
| `ascii.dfy` | `Ascii` | ASCII upper/lower casing of strings and its laws |
| `image_status.dfy` | `ImageStatus` | `Status`, `Parse` (`value(String)`), `Value` (`value()`), their laws |
| `json.dfy` | `Json` | JSON as a tagged sum (null, bool, integer number, string, array, object) |
| `patch_operation.dfy` | `PatchOperation` | operation kind and the operation record |
| `image_update.dfy` | `ImageUpdate` | parsing the JSON array; classes for the update, its list, the JSON node and the builder |

The operation-kind parser (`GlancePatchOperation.OperationType.value`) is not part of this
model. Every member that needs it takes it as a parameter
`parseKind: Option<string> -> OpKind`, so nothing is assumed about it.

The sharing facts (no copy of lists, `build()` returns the wrapped object, `toBuilder()`
wraps `this`) are stated with Dafny classes and reference equality.

Facts about the code that the model keeps:
- The builder hands out the object it mutates and takes no snapshot.
- `getOps` and the list constructor share the caller's list.
- A missing `op` or `path` member raises a null-pointer exception. Here it is a
  precondition (see Left out).
- `UNRECOGNIZED` serialises to the fixed text `"unrecognized"`.

## Model

| member | source | states |
|---|---|---|
| Ascii.Upper | core/src/main/java/org/openstack4j/model/image/v2/Image.java:74 | upper-casing keeps the length, maps each character by ASCII upper-casing, and leaves no lower-case letter |
| Ascii.Lower | core/src/main/java/org/openstack4j/model/image/v2/Image.java:82 | lower-casing keeps the length, maps each character by ASCII lower-casing, and leaves no upper-case letter |
| Ascii.UpperIdempotent | core/src/main/java/org/openstack4j/model/image/v2/Image.java:74 | upper-casing an upper-cased string changes nothing |
| Ascii.UpperLowerInverse | core/src/main/java/org/openstack4j/model/image/v2/Image.java:80-83 | a string with no lower-case letter is recovered by upper-casing its lower-casing |
| Ascii.LowerInjective | core/src/main/java/org/openstack4j/model/image/v2/Image.java:81-82 | two strings without lower-case letters with equal lower-casings are equal |
| ImageStatus.NameInjective | core/src/main/java/org/openstack4j/model/image/v2/Image.java:23-67 | the eight constants have pairwise distinct names |
| ImageStatus.NameHasNoLower | core/src/main/java/org/openstack4j/model/image/v2/Image.java:23-67 | every constant name is written without lower-case letters |
| ImageStatus.Lookup | core/src/main/java/org/openstack4j/model/image/v2/Image.java:74 | a lookup among candidates finds a candidate whose name is exactly the text, or reports that none has it |
| ImageStatus.ValueOf | core/src/main/java/org/openstack4j/model/image/v2/Image.java:74-76 | the case-sensitive `valueOf` gives constant s exactly when the text is s's name; otherwise it is the failure that the catch turns into `UNRECOGNIZED` |
| ImageStatus.Parse | core/src/main/java/org/openstack4j/model/image/v2/Image.java:69-78 | null gives `UNRECOGNIZED`; text whose upper-casing is a constant's name gives that constant; any other text gives `UNRECOGNIZED` |
| ImageStatus.Value | core/src/main/java/org/openstack4j/model/image/v2/Image.java:80-83 | the serialised name has no upper-case letter, and upper-casing it gives back the constant's name |
| ImageStatus.ParseCaseInsensitive | core/src/main/java/org/openstack4j/model/image/v2/Image.java:74 | every spelling whose upper-casing is a constant's name parses to that constant |
| ImageStatus.ParseUnknownIsUnrecognized | core/src/main/java/org/openstack4j/model/image/v2/Image.java:73-77 | text whose upper-casing names no constant parses to `UNRECOGNIZED` |
| ImageStatus.ParseDependsOnlyOnUpper | core/src/main/java/org/openstack4j/model/image/v2/Image.java:74 | parsing a text and parsing its upper-casing agree |
| ImageStatus.RoundTrip | core/src/main/java/org/openstack4j/model/image/v2/Image.java:69-83 | parsing the serialised form of any status, `UNRECOGNIZED` included, gives that status back |
| ImageStatus.ValueInjective | core/src/main/java/org/openstack4j/model/image/v2/Image.java:80-83 | distinct statuses serialise to distinct strings |
| ImageStatus.ActiveSpellings | core/src/main/java/org/openstack4j/model/image/v2/Image.java:74 | "active", "Active" and "ACTIVE" all parse to `ACTIVE` |
| ImageStatus.PendingDeleteValue | core/src/main/java/org/openstack4j/model/image/v2/Image.java:81-82 | `PENDING_DELETE` serialises to "pending_delete" |
| ImageStatus.PendingDeleteParse | core/src/main/java/org/openstack4j/model/image/v2/Image.java:69-78 | "pending_delete" parses to `PENDING_DELETE` |
| ImageUpdate.ParseOps | core/src/main/java/org/openstack4j/openstack/image/v2/GlanceImageUpdate.java:23-31 | one operation per element, in element order; operation i has the kind parsed from element i's `op` text, element i's `path` text, and element i's `value` node unchanged (absent when missing) |
| ImageUpdate.ParseOpsAppend | core/src/main/java/org/openstack4j/openstack/image/v2/GlanceImageUpdate.java:23-31 | the operations of two concatenated element runs are the concatenation of their operations, so the walk neither skips nor reorders |
| ImageUpdate.ParseArray | core/src/main/java/org/openstack4j/openstack/image/v2/GlanceImageUpdate.java:21-34 | on an array: the operations of all elements in order, and the array left empty; on any other node: no operations, and the node untouched |
| ImageUpdate.BuildTwice | core/src/main/java/org/openstack4j/openstack/image/v2/GlanceImageUpdate.java:88-91 | two `build()` calls on one builder return the same object, the one the builder wraps |
| ImageUpdate.BuiltFromScratchIsEmpty | core/src/main/java/org/openstack4j/openstack/image/v2/GlanceImageUpdate.java:64-73 | `builder().build()` is an update with an empty operation list |
| ImageUpdate.EditThroughBuilder | core/src/main/java/org/openstack4j/openstack/image/v2/GlanceImageUpdate.java:60-62 | replacing the list through `toBuilder()` changes the original update, and `build()` returns that original |
| ImageUpdate.CallerEditVisible | core/src/main/java/org/openstack4j/openstack/image/v2/GlanceImageUpdate.java:36-47 | after the list constructor, `getOps` is the caller's list itself, and a later append by the caller shows through it |
| ImageUpdate.GlanceImageUpdate.GetOps | core/src/main/java/org/openstack4j/openstack/image/v2/GlanceImageUpdate.java:45-47 | `getOps()` returns the backing list object itself, not a copy |
| ImageUpdate.RetargetThenBuild | core/src/main/java/org/openstack4j/openstack/image/v2/GlanceImageUpdate.java:83-97 | after `from(u)`, replacing the list through the builder makes it `u`'s list, and `build()` returns `u` |
| ImageUpdate.UpdateBuilder.Ops | core/src/main/java/org/openstack4j/openstack/image/v2/GlanceImageUpdate.java:83-86 | `ops(l)` makes the wrapped update's list be `l` itself and returns the same builder |
| ImageUpdate.UpdateBuilder.Build | core/src/main/java/org/openstack4j/openstack/image/v2/GlanceImageUpdate.java:89-91 | `build()` returns the wrapped update object itself |
| ImageUpdate.UpdateBuilder.From | core/src/main/java/org/openstack4j/openstack/image/v2/GlanceImageUpdate.java:94-97 | `from(in)` makes the builder wrap `in` itself and returns the same builder; the builder has no other state |
| ImageUpdate.GlanceImageUpdate.ToBuilder | core/src/main/java/org/openstack4j/openstack/image/v2/GlanceImageUpdate.java:60-62 | `toBuilder()` is a new builder wrapping this very update |
| ImageUpdate.GlanceImageUpdate.Builder | core/src/main/java/org/openstack4j/openstack/image/v2/GlanceImageUpdate.java:64-66 | `builder()` is a new builder wrapping a new update whose new list is empty |

The constructors are described here:
- `GlanceImageUpdate()` gives a new, empty list (GlanceImageUpdate.java:16-19).
- `GlanceImageUpdate.FromJson` fits `ParseArray`'s result into the update and the node
  (GlanceImageUpdate.java:21-34).
- `GlanceImageUpdate.FromList` keeps the given list (GlanceImageUpdate.java:36-38).
- `UpdateBuilder()` and `UpdateBuilder.Wrapping` are the two builder constructors
  (GlanceImageUpdate.java:71-77).

## Left out

- Case mapping is ASCII only. Java's `toUpperCase`/`toLowerCase` follow the default locale
  and full Unicode. For example, a dotless `ı` upper-cases to `I`, and under a Turkish locale
  `i` upper-cases to `İ`. Such inputs can parse differently in Java.
- `GlancePatchOperation` and `OperationType.value` are not part of this model. Operations are
  a plain record; the kind parser is a parameter.
- ImageUpdate.ParseOps: requires every array element to be an object with an `op` member
  and a string `path` member. In the code, `get` returns null for a missing member or for an
  element that is not an object, and the `textValue()` call on that null raises a
  null-pointer exception. A non-string `path` gives a null path. Both depend on Jackson
  semantics outside the modelled code. A non-string `op` is modelled: its text is null
  (`None`).
- ImageUpdate.UpdateBuilder.Ops, ImageUpdate.UpdateBuilder.From, ImageUpdate.GlanceImageUpdate.FromList:
  arguments are non-null references. The code stores a null list or update as it is, so
  `getOps()` or `build()` can then return null. The JSON constructor throws a null-pointer
  exception on a null node; that case is not modelled either.
- ImageUpdate.ParseArray: the array is drained one element per step. The model states
  only the final state (an empty array); no other code can observe the intermediate
  states.
- The `value` node of an operation is the same Jackson node object as the element's
  member. JSON values here are immutable, so the model carries the value, not the object
  identity.
- JSON numbers are integers only; floating point is not modelled.
- `from(ImageUpdate)` casts its argument to `GlanceImageUpdate`. The model's parameter
  already has that type, so the cast failure for another implementation is not modelled.
- The JSON serialisation of the list (`@JsonValue` on `getOps`) goes through the operation
  serialiser, which is not part of this model. No JSON round-trip is stated.
- `toString` is diagnostic output only. The getters of `Image` only mirror attributes.
  HTTP transport and the image service are outside this component.
