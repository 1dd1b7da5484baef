/**
 The catalogue entry shown by the viewer (`Story` in src/lib/types.ts).
 Only `duration` takes part in playback; the other fields are carried
 along so that a catalogue can be written down faithfully.
 */
module Stories {
  import opened Wrappers

  datatype User = User(name: string, avatar: Option<string>)

  /** `duration` is optional in the source and measured in milliseconds. */
  datatype Story = Story(id: string, image: string, duration: Option<nat>, user: Option<User>)

}
