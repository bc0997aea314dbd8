/**
 Creating a post for the signed-in user. When a file is attached it is saved
 under `content/user/<userId>/posts/<uuid>.<subtype>` and the link the file
 service returns goes onto the post; the post is then appended to the posts
 repository. Nothing is returned: the handler gives back no post id.

 The uuid is a parameter of `Execute`; the file service's link is a function
 of the path and the file that the service is constructed with.
 */
module CreatePost {
  import opened JsText

  datatype Option<T> = None | Some(value: T)

  newtype byte = x: int | 0 <= x < 256

  /** An uploaded file as the upload middleware hands it over. */
  datatype UploadedFile = UploadedFile(mimetype: string, buffer: seq<byte>)

  datatype CreatePostInputModel = CreatePostInputModel(description: string)

  /** The command: the author, the optional file and the request body. */
  datatype CreatePostCommand = CreatePostCommand(userId: nat, file: Option<UploadedFile>, input: CreatePostInputModel)

  /** A new post before the repository stores it; `link` is undefined without a file. */
  datatype Post = Post(description: string, link: Option<string>, userId: nat)

  /** `mimetype.split('/')[1]` as a template literal prints it: "undefined" when there is no `/`. */
  function Subtype(mimetype: string): string
  {
    var parts := Split(mimetype, '/');
    if |parts| > 1 then parts[1] else "undefined"
  }

  /** The directory every file of one user lives under. */
  function UserDirectory(userId: nat): string
  {
    "content/user/" + Decimal(userId) + "/"
  }

  /** The storage path of an attached file. */
  function PostPath(userId: nat, uuid: string, mimetype: string): string
  {
    UserDirectory(userId) + "posts/" + uuid + "." + Subtype(mimetype)
  }

  /** The subtype is the text between the first and the second `/`. */
  lemma SubtypeIsSecondSegment(kind: string, subtype: string, rest: string)
    requires '/' !in kind && '/' !in subtype
    requires rest == [] || rest[0] == '/'
    ensures Subtype(kind + "/" + subtype + rest) == subtype
  {
    assert kind + "/" + subtype + rest == kind + ['/'] + (subtype + rest);
    SplitAtFirstSeparator(kind, '/', subtype + rest);
    if rest == [] {
      assert subtype + rest == subtype;
      SplitWithoutSeparator(subtype, '/');
    } else {
      assert subtype + rest == subtype + ['/'] + rest[1..];
      SplitAtFirstSeparator(subtype, '/', rest[1..]);
    }
  }

  /** For `image/png` the extension is `png`. */
  lemma SubtypeOfImagePng()
    ensures Subtype("image/png") == "png"
  {
  }

  /** A mimetype without `/` makes the extension the text "undefined". */
  lemma SubtypeWithoutSlash(mimetype: string)
    requires '/' !in mimetype
    ensures Subtype(mimetype) == "undefined"
  {
    SplitWithoutSeparator(mimetype, '/');
  }

  /** A user's own file lies in that user's directory. */
  lemma PostPathInUserDirectory(userId: nat, uuid: string, mimetype: string)
    ensures UserDirectory(userId) <= PostPath(userId, uuid, mimetype)
  {
  }

  lemma NoSlashInDecimal(n: nat)
    ensures '/' !in Decimal(n)
  {
  }

  /** Files of different users never land in the same directory. */
  lemma OtherUsersDirectory(u1: nat, u2: nat, uuid: string, mimetype: string)
    requires u1 != u2
    ensures !(UserDirectory(u1) <= PostPath(u2, uuid, mimetype))
  {
    var p := "content/user/";
    var d1, d2 := Decimal(u1), Decimal(u2);
    var tail := "posts/" + uuid + "." + Subtype(mimetype);
    assert UserDirectory(u1) == p + (d1 + ['/']);
    assert PostPath(u2, uuid, mimetype) == p + (d2 + ['/'] + tail);
    if p + (d1 + ['/']) <= p + (d2 + ['/'] + tail) {
      DropCommonPrefix(p, d1 + ['/'], d2 + ['/'] + tail);
      NoSlashInDecimal(u1);
      NoSlashInDecimal(u2);
      SeparatorBoundsPrefix(d1, d2, '/', tail);
      DecimalInjective(u1, u2);
    }
  }

  /**
   Two files get the same path only for the same user and the same uuid, as long
   as the uuid holds no `.` (a version-4 uuid holds only hex digits and `-`).
   */
  lemma PostPathsDistinct(u1: nat, id1: string, m1: string, u2: nat, id2: string, m2: string)
    requires '.' !in id1 && '.' !in id2
    requires u1 != u2 || id1 != id2
    ensures PostPath(u1, id1, m1) != PostPath(u2, id2, m2)
  {
    if u1 != u2 {
      OtherUsersDirectory(u1, u2, id2, m2);
      PostPathInUserDirectory(u1, id1, m1);
    } else {
      var dir := UserDirectory(u1) + "posts/";
      var x := id1 + ['.'] + Subtype(m1);
      var y := id2 + ['.'] + Subtype(m2);
      assert PostPath(u1, id1, m1) == dir + x;
      assert PostPath(u2, id2, m2) == dir + y;
      if dir + x == dir + y {
        assert x == (dir + x)[|dir|..] && y == (dir + y)[|dir|..];
        SeparatorDeterminesPrefix(id1, id2, '.', Subtype(m1), Subtype(m2));
      }
    }
  }

  /** The post the handler builds: the command's description and author, and the saved link if any. */
  function NewPost(command: CreatePostCommand, uuid: string, saveFile: (string, UploadedFile) -> string): (p: Post)
    ensures p.description == command.input.description && p.userId == command.userId
    ensures p.link.None? <==> command.file.None?
    ensures command.file.Some? ==>
              p.link == Some(saveFile(PostPath(command.userId, uuid, command.file.value.mimetype), command.file.value))
  {
    var link :=
      if command.file.Some?
      then Some(saveFile(PostPath(command.userId, uuid, command.file.value.mimetype), command.file.value))
      else None;
    Post(command.input.description, link, command.userId)
  }

  /** The file store: what has been written where, and the link it answers with. */
  class FilesService {
    var stored: map<string, UploadedFile>
    const linkFor: (string, UploadedFile) -> string

    constructor (linkFor: (string, UploadedFile) -> string)
      ensures stored == map[] && this.linkFor == linkFor
    {
      stored := map[];
      this.linkFor := linkFor;
    }

    /** `saveFile(path, file)`: writes the file at `path` and returns its link. */
    method SaveFile(path: string, file: UploadedFile) returns (link: string)
      modifies this
      ensures stored == old(stored)[path := file]
      ensures link == linkFor(path, file)
    {
      stored := stored[path := file];
      link := linkFor(path, file);
    }
  }

  /** The posts repository: the stored posts in insertion order. */
  class PostsRepository {
    var posts: seq<Post>

    constructor ()
      ensures posts == []
    {
      posts := [];
    }

    /** `create(post)`: appends the post. */
    method Create(post: Post)
      modifies this
      ensures posts == old(posts) + [post]
    {
      posts := posts + [post];
    }
  }

  /** The command handler with its two collaborators. */
  class CreatePostUseCase {
    const filesService: FilesService
    const postsRepository: PostsRepository

    constructor (filesService: FilesService, postsRepository: PostsRepository)
      ensures this.filesService == filesService && this.postsRepository == postsRepository
    {
      this.filesService := filesService;
      this.postsRepository := postsRepository;
    }

    /**
     `execute(command)`: saves the attached file, if any, at its post path, then
     appends exactly one post and leaves the posts already stored as they were.
     */
    method Execute(command: CreatePostCommand, uuid: string)
      modifies filesService, postsRepository
      ensures command.file.None? ==> filesService.stored == old(filesService.stored)
      ensures command.file.Some? ==>
                filesService.stored ==
                old(filesService.stored)[PostPath(command.userId, uuid, command.file.value.mimetype) := command.file.value]
      ensures postsRepository.posts == old(postsRepository.posts) + [NewPost(command, uuid, filesService.linkFor)]
    {
      var description := command.input.description;
      var link: Option<string> := None;
      if command.file.Some? {
        var filePath := PostPath(command.userId, uuid, command.file.value.mimetype);
        var saved := filesService.SaveFile(filePath, command.file.value);
        link := Some(saved);
      }
      var userId := command.userId;
      var post := Post(description, link, userId);
      postsRepository.Create(post);
    }
  }
}
