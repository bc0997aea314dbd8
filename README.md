# photostock: pagination pipe and post creation

This project models the two parts of the photostock backend that have behaviour
of their own. The rest of the backend is HTTP routing and calls into an ORM.

- **Pagination pipe** (`QueryTransformPipe`, in `query_transform_pipe.dfy`).
  The pipe reads `pageNumber` and `pageSize` from an HTTP query. It returns a
  fresh object that holds only those two fields, as numbers. A missing or falsy
  value gets its default: 1 for `pageNumber`, 8 for `pageSize`. So does a value
  whose `Number(...)` is NaN or below 1. Every other value passes through as its
  `Number(...)`. JavaScript values are modelled as far as the pipe looks at them:
  their truthiness (for `||`) and their `Number` conversion. A string does not
  get parsed in the model. It carries the number that `Number` gives for it, and
  the only fact the model needs is that `Number("")` is 0. Numbers are
  `NaN | -Infinity | Finite(real) | +Infinity`, so `"2.5"` and `"Infinity"` pass
  through as they do in the source.
- **Post creation** (`CreatePost`, in `create_post_use_case.dfy`, with the
  JavaScript string helpers in `js_text.dfy`). When a file is attached, the
  handler saves it at `content/user/<userId>/posts/<uuid>.<subtype>`.
  `<subtype>` is element 1 of `mimetype.split('/')`, and the template prints the
  text `undefined` when the mimetype has no `/`. The link returned by
  `saveFile` goes onto a new post, and the post is appended to the posts
  repository. Without a file nothing is saved and the post's link stays
  undefined. The handler returns nothing. The controller that calls it
  (`src/features/user/api/user-profile.controller.ts:160-167`) still treats its
  result as a post id; the model promises no id.
  The uuid is a parameter of `Execute`. The file service is a class with a map
  of stored files and a link function. The repository is a class whose `posts`
  field is a `seq<Post>`.

## Model

| member | source | states |
|---|---|---|
| `QueryTransformPipe.Transform` | src/helpers/common/pipes/query-transform.pipe.ts:9-21 | the returned `pageNumber` and `pageSize` are both at least 1 and never NaN, whatever the query holds |
| `QueryTransformPipe.TransformIsAccepted` | src/helpers/common/pipes/query-transform.pipe.ts:13-19 | each returned field is the field's `Number(...)` when that is at least 1, and its default (1 or 8) otherwise; the `||` step and the `< 1 / isNaN` step together amount to this one rule |
| `QueryTransformPipe.FalsyGetsDefault` | src/helpers/common/pipes/query-transform.pipe.ts:13-15 | a missing or falsy value (undefined, null, false, 0, NaN, "") yields 1 for `pageNumber` and 8 for `pageSize` |
| `QueryTransformPipe.RejectedGetsDefault` | src/helpers/common/pipes/query-transform.pipe.ts:14-16 | a value whose `Number(...)` is NaN or below 1 is replaced by its default, 1 or 8 |
| `QueryTransformPipe.FieldsIndependent` | src/helpers/common/pipes/query-transform.pipe.ts:13-16 | the returned `pageNumber` depends only on the query's `pageNumber`, and the returned `pageSize` only on the query's `pageSize` |
| `QueryTransformPipe.OtherKeysIgnored` | src/helpers/common/pipes/query-transform.pipe.ts:17-20 | no other key of the query affects the result, which holds exactly the two numeric fields |
| `QueryTransformPipe.TransformIdempotent` | src/helpers/common/pipes/query-transform.pipe.ts:13-20 | running the pipe on its own output returns that output unchanged |
| `JsText.Split` | src/features/user/application/use-cases/create-post.use-case.ts:33 | `split` with a one-character separator gives at least one piece, and no piece contains the separator |
| `JsText.JoinSplit` | src/features/user/application/use-cases/create-post.use-case.ts:33 | joining the pieces of `split` with the separator gives the original text back |
| `JsText.SplitJoin` | src/features/user/application/use-cases/create-post.use-case.ts:33 | splitting joined pieces that hold no separator gives the pieces back |
| `JsText.Decimal` | src/features/user/application/use-cases/create-post.use-case.ts:32 | the text a template prints for the user id is a non-empty string of decimal digits that starts with 0 only for 0 |
| `JsText.ParseDecimalOfDecimal` | src/features/user/application/use-cases/create-post.use-case.ts:32 | reading the printed user id back as a decimal gives the id |
| `JsText.DecimalInjective` | src/features/user/application/use-cases/create-post.use-case.ts:32 | two different user ids print as two different texts |
| `CreatePost.SubtypeIsSecondSegment` | src/features/user/application/use-cases/create-post.use-case.ts:33 | the extension is the text between the first and the second `/` of the mimetype, or after the first `/` when there is no second |
| `CreatePost.SubtypeOfImagePng` | src/features/user/application/use-cases/create-post.use-case.ts:33 | for `image/png` the extension is `png` |
| `CreatePost.SubtypeWithoutSlash` | src/features/user/application/use-cases/create-post.use-case.ts:32-34 | a mimetype without `/` gives the extension text `undefined` |
| `CreatePost.PostPathInUserDirectory` | src/features/user/application/use-cases/create-post.use-case.ts:32 | the path of a user's file starts with `content/user/<userId>/` |
| `CreatePost.OtherUsersDirectory` | src/features/user/application/use-cases/create-post.use-case.ts:32 | the path of a file of one user never starts with another user's directory `content/user/<otherId>/` |
| `CreatePost.PostPathsDistinct` | src/features/user/application/use-cases/create-post.use-case.ts:32-34 | two uploads get the same path only when the user and the uuid are both the same, given uuids without `.` |
| `CreatePost.NewPost` | src/features/user/application/use-cases/create-post.use-case.ts:28-38 | the new post carries the command's description and user id; its link is undefined exactly when no file is attached, and otherwise is what `saveFile` returns for the post path and that file |
| `CreatePost.FilesService.SaveFile` | src/features/user/application/use-cases/create-post.use-case.ts:35 | the file is stored at the given path, nothing else in the store changes, and the returned link is the service's link for that path and file |
| `CreatePost.PostsRepository.Create` | src/features/user/application/use-cases/create-post.use-case.ts:39 | the repository holds the earlier posts, unchanged and in order, followed by the new post |
| `CreatePost.CreatePostUseCase.constructor` | src/features/user/application/use-cases/create-post.use-case.ts:22-25 | the handler keeps the file service and the posts repository it is given |
| `CreatePost.CreatePostUseCase.Execute` | src/features/user/application/use-cases/create-post.use-case.ts:27-40 | with no file the store is unchanged; with a file exactly that file is stored at `content/user/<userId>/posts/<uuid>.<subtype>`; exactly one post, `NewPost(...)`, is appended after the posts already stored; nothing is returned |

## Left out

- Parsing of strings by `Number(...)`: a string value carries its number. The model assumes only that `Number("")` is 0.
- Floating point: finite numbers are exact reals, so rounding of very large or very precise inputs is not modelled.
- The pipe's `metadata` argument: the source ignores it.
- `userId` is a non-negative integer in the model. A database id is always one. Template printing of numbers at or above 10^21 (exponent notation) is not modelled.
- Generating the uuid: it is a parameter of `Execute`. `PostPathsDistinct` assumes only that it holds no `.`, as a version-4 uuid does.
- The file write itself. `FilesService` is a map from paths to files, and the link it returns is a function of the path and the file given when the service is built. The actual file service is not part of this model.
- Rejections: when `saveFile` or the repository's `create` fails, the exception propagates and no post is stored. The model has no failing service.
- The repository's id assignment and persistence, and the `PostDomain` constructor, which are not part of this model. A post is the triple of description, link and user id.
- `async`/`await` ordering: the steps run in sequence, which is the order the awaits impose.
- Controllers, guards, the other use cases (profile update and deletion, data reset), JWT and session handling, and the data-only view and command classes: these are framework glue with no logic of their own to model.
